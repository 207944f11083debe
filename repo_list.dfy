/**
 * The repository list screen's view model: the screen state, the paging
 * position, the search query, and how events and load results change them.
 */
module ListScreen {
  import opened Wrappers
  import opened Models

  /** The organisation the list screen browses. */
  const DefaultOrg := "google"

  /** What the list screen renders. */
  datatype RepoListState = RepoListState(repos: seq<Repo>, isLoading: bool, error: Option<string>)

  /** What the user does on the list screen. */
  datatype RepoListEvent = OnSearchQueryChange(query: string) | LoadNextPage | Refresh | OnRetry

  /** A flow the view model launches: a page of the organisation's list, or a search. */
  datatype Load = ListLoad(org: string, page: int) | SearchLoad(query: string, page: int)

  /** Which collector handles a result: the list load's or the search's. */
  datatype Flow = ListFlow | SearchFlow

  /** Everything the view model holds. */
  datatype Screen = Screen(state: RepoListState, currentPage: int, canLoadMore: bool, searchQuery: string)

  /** The result of handling one event: the new screen and the flow launched, if any. */
  datatype Handled = Handled(next: Screen, launched: Option<Load>)

  const Initial := Screen(RepoListState([], false, None), 1, true, "")

  /** How one collected result changes the screen. */
  function Apply(m: Screen, flow: Flow, result: NetworkResult<seq<Repo>>): (r: Screen)
    ensures r.currentPage == m.currentPage && r.searchQuery == m.searchQuery
    ensures !result.Success? ==> r.state.repos == m.state.repos && r.canLoadMore == m.canLoadMore
    ensures r.state.isLoading <==> result == Loading(true)
    ensures r.state.error.Some? <==> result.Error?
  {
    match result
    case Loading(b) => m.(state := m.state.(isLoading := b, error := None))
    case Success(data) =>
      if flow == SearchFlow then m.(state := m.state.(repos := data, isLoading := false, error := None))
      else
        var repos := if m.currentPage == 1 then data else m.state.repos + data;
        m.(state := m.state.(repos := repos, isLoading := false, error := None), canLoadMore := |data| > 0)
    case Error(message) => m.(state := m.state.(isLoading := false, error := Some(message)))
  }

  /** The screen after collecting `results` in order. */
  function Run(m: Screen, flow: Flow, results: seq<NetworkResult<seq<Repo>>>): (r: Screen)
    ensures (forall i :: 0 <= i < |results| ==> !results[i].Success?) ==>
      r.state.repos == m.state.repos && r.canLoadMore == m.canLoadMore
    decreases |results|
  {
    if results == [] then m else Run(Apply(m, flow, results[0]), flow, results[1..])
  }

  /** How `onEvent` changes the screen, and what it launches. */
  function Handle(m: Screen, event: RepoListEvent): (h: Handled)
    ensures h.next.state == m.state
    ensures h.next.searchQuery == (if event.OnSearchQueryChange? then event.query else m.searchQuery)
    ensures h.launched.Some? ==> h.launched.value == ListLoad(DefaultOrg, h.next.currentPage)
    ensures h.launched.None? ==> h.next.currentPage == m.currentPage && h.next.canLoadMore == m.canLoadMore
  {
    match event
    case OnSearchQueryChange(query) => Handled(m.(searchQuery := query), None)
    case LoadNextPage =>
      if m.canLoadMore && !m.state.isLoading then
        Handled(m.(currentPage := m.currentPage + 1), Some(ListLoad(DefaultOrg, m.currentPage + 1)))
      else Handled(m, None)
    case Refresh => Handled(m.(currentPage := 1, canLoadMore := true), Some(ListLoad(DefaultOrg, 1)))
    case OnRetry => Handled(m, Some(ListLoad(DefaultOrg, m.currentPage)))
  }

  /** The load the query observer launches for the settled query. */
  function Dispatch(m: Screen): (load: Load)
    ensures load.SearchLoad? <==> |m.searchQuery| > 0
    ensures load.SearchLoad? ==> load.query == m.searchQuery && load.page == 1
    ensures load.ListLoad? ==> load.org == DefaultOrg && load.page == m.currentPage
  {
    if |m.searchQuery| > 0 then SearchLoad(m.searchQuery, 1) else ListLoad(DefaultOrg, m.currentPage)
  }

  class RepoListViewModel {
    var state: RepoListState
    var searchQuery: string
    var currentPage: int
    var canLoadMore: bool

    function Model(): Screen
      reads this
    {
      Screen(state, currentPage, canLoadMore, searchQuery)
    }

    constructor()
      ensures Model() == Initial
    {
      state := RepoListState([], false, None);
      searchQuery := "";
      currentPage := 1;
      canLoadMore := true;
    }

    /** Handles one user event; returns the flow it launches, if any. */
    method OnEvent(event: RepoListEvent) returns (launched: Option<Load>)
      modifies this
      ensures Handled(Model(), launched) == Handle(old(Model()), event)
    {
      launched := None;
      match event {
        case OnSearchQueryChange(query) =>
          searchQuery := query;
        case LoadNextPage =>
          if canLoadMore && !state.isLoading {
            currentPage := currentPage + 1;
            var load := LoadRepos(false);
            launched := Some(load);
          }
        case Refresh =>
          currentPage := 1;
          var load := LoadRepos(true);
          launched := Some(load);
        case OnRetry =>
          var load := LoadRepos(false);
          launched := Some(load);
      }
    }

    /** Resets paging on a refresh, then launches the list load for the current page. */
    method LoadRepos(refresh: bool) returns (load: Load)
      modifies this
      ensures refresh ==> Model() == old(Model()).(currentPage := 1, canLoadMore := true)
      ensures !refresh ==> Model() == old(Model())
      ensures load == ListLoad(DefaultOrg, currentPage)
    {
      if refresh {
        currentPage := 1;
        canLoadMore := true;
      }
      load := ListLoad(DefaultOrg, currentPage);
    }

    /** The query observer firing on the settled query: a search, or the list when the query is empty. */
    method ObserveSearchQuery() returns (load: Load)
      ensures load == Dispatch(Model())
      ensures load.SearchLoad? <==> |searchQuery| > 0
    {
      if |searchQuery| > 0 {
        load := SearchLoad(searchQuery, 1);
      } else {
        // loadRepos() without a refresh changes nothing before it launches
        load := ListLoad(DefaultOrg, currentPage);
      }
    }

    /** One result of a list load. */
    method OnListResult(result: NetworkResult<seq<Repo>>)
      modifies this
      ensures Model() == Apply(old(Model()), ListFlow, result)
    {
      match result {
        case Loading(b) =>
          state := state.(isLoading := b, error := None);
        case Success(data) =>
          var repos := if currentPage == 1 then data else state.repos + data;
          canLoadMore := |data| > 0;
          state := state.(repos := repos, isLoading := false, error := None);
        case Error(message) =>
          state := state.(isLoading := false, error := Some(message));
      }
    }

    /** One result of a search. */
    method OnSearchResult(result: NetworkResult<seq<Repo>>)
      modifies this
      ensures Model() == Apply(old(Model()), SearchFlow, result)
    {
      match result {
        case Loading(b) =>
          state := state.(isLoading := b, error := None);
        case Success(data) =>
          state := state.(repos := data, isLoading := false, error := None);
        case Error(message) =>
          state := state.(isLoading := false, error := Some(message));
      }
    }

    /** Collects every result a list load emits. */
    method CollectListResults(results: seq<NetworkResult<seq<Repo>>>)
      modifies this
      ensures Model() == Run(old(Model()), ListFlow, results)
    {
      for i := 0 to |results|
        invariant Run(Model(), ListFlow, results[i..]) == Run(old(Model()), ListFlow, results)
      {
        assert results[i..][1..] == results[i + 1..];
        OnListResult(results[i]);
      }
      assert results[|results|..] == [];
    }

    /** Collects every result a search emits. */
    method CollectSearchResults(results: seq<NetworkResult<seq<Repo>>>)
      modifies this
      ensures Model() == Run(old(Model()), SearchFlow, results)
    {
      for i := 0 to |results|
        invariant Run(Model(), SearchFlow, results[i..]) == Run(old(Model()), SearchFlow, results)
      {
        assert results[i..][1..] == results[i + 1..];
        OnSearchResult(results[i]);
      }
      assert results[|results|..] == [];
    }
  }
}
