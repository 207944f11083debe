/**
 * The synchroniser between the GitHub API and the local store.
 *
 * A result flow is modelled as the finite list of events one run of it emits;
 * a call to the API as the value the `GithubApi` functions give for the
 * request; the store as a `RepoDao` that the run changes in place.
 */
module Repository {
  import opened Wrappers
  import opened Models
  import opened Remote
  import opened Text
  import opened Mappers
  import opened Dao

  /** The events of one run of a result flow. */
  type Events = seq<NetworkResult<seq<Repo>>>

  /** The organisation every search is scoped to. */
  const SearchScope: string := "org:google "

  /** Domain repos listed newest `createdAt` first. */
  predicate NewestFirst(rs: seq<Repo>) {
    forall i, j :: 0 <= i < j < |rs| ==> StrLeq(rs[j].createdAt, rs[i].createdAt)
  }

  /** No repo appears twice. */
  predicate IdsDistinct(rs: seq<Repo>) {
    forall i, j :: 0 <= i < j < |rs| ==> rs[i].id != rs[j].id
  }

  /** Every stored repo's owner row is present (the foreign key holds). */
  ghost predicate OwnersResolvable(s: Store) {
    forall k :: k in s.repos ==> s.repos[k].ownerId in s.owners
  }

  // ---------------------------------------------------------------------------
  // Reading the cache

  /**
   * The loop of `getCachedRepos` over a listing: each row whose owner row
   * exists becomes a domain repo; the others are dropped.
   */
  function Joined(listing: seq<LocalRepo>, owners: map<int, LocalOwner>): (r: seq<Repo>)
    ensures |r| <= |listing|
    decreases |listing|
  {
    if listing == [] then []
    else
      var init, last := listing[..|listing| - 1], listing[|listing| - 1];
      Joined(init, owners) + if last.ownerId in owners then [LocalToRepo(last, owners[last.ownerId])] else []
  }

  /** What the joined list holds, and where each element comes from. */
  lemma {:induction false} JoinedMembers(listing: seq<LocalRepo>, owners: map<int, LocalOwner>)
    ensures forall x :: x in Joined(listing, owners) ==>
      exists i :: 0 <= i < |listing| && listing[i].ownerId in owners && x == LocalToRepo(listing[i], owners[listing[i].ownerId])
    ensures forall i :: 0 <= i < |listing| && listing[i].ownerId in owners ==>
      LocalToRepo(listing[i], owners[listing[i].ownerId]) in Joined(listing, owners)
    decreases |listing|
  {
    if listing != [] {
      var init := listing[..|listing| - 1];
      JoinedMembers(init, owners);
      forall x | x in Joined(listing, owners) ensures
        exists i :: 0 <= i < |listing| && listing[i].ownerId in owners && x == LocalToRepo(listing[i], owners[listing[i].ownerId])
      {
        if x in Joined(init, owners) {
          var i :| 0 <= i < |init| && init[i].ownerId in owners && x == LocalToRepo(init[i], owners[init[i].ownerId]);
          assert listing[i] == init[i];
        } else {
          assert listing[|listing| - 1].ownerId in owners;
        }
      }
      forall i | 0 <= i < |listing| && listing[i].ownerId in owners ensures
        LocalToRepo(listing[i], owners[listing[i].ownerId]) in Joined(listing, owners)
      {
        if i < |listing| - 1 {
          assert init[i] == listing[i];
        }
      }
    }
  }

  /** Dropping rows keeps the listing's order. */
  lemma {:induction false} JoinedKeepsOrder(listing: seq<LocalRepo>, owners: map<int, LocalOwner>)
    requires SortedByCreatedDesc(listing)
    ensures NewestFirst(Joined(listing, owners))
    decreases |listing|
  {
    if listing != [] {
      var init, last := listing[..|listing| - 1], listing[|listing| - 1];
      JoinedKeepsOrder(init, owners);
      JoinedMembers(init, owners);
      var front := Joined(init, owners);
      var r := Joined(listing, owners);
      if last.ownerId in owners {
        assert r == front + [LocalToRepo(last, owners[last.ownerId])];
        forall i, j | 0 <= i < j < |r| ensures StrLeq(r[j].createdAt, r[i].createdAt) {
          if j == |r| - 1 {
            assert r[i] in front;
            var k :| 0 <= k < |init| && init[k].ownerId in owners && r[i] == LocalToRepo(init[k], owners[init[k].ownerId]);
            assert listing[k] == init[k] && r[i].createdAt == listing[k].createdAt;
            assert r[j].createdAt == listing[|listing| - 1].createdAt;
          } else {
            assert r[i] == front[i] && r[j] == front[j];
          }
        }
      } else {
        assert r == front;
      }
    }
  }

  /** Distinct ids in the listing stay distinct in the joined list. */
  lemma {:induction false} JoinedKeepsIdsDistinct(listing: seq<LocalRepo>, owners: map<int, LocalOwner>)
    requires forall i, j :: 0 <= i < j < |listing| ==> listing[i].id != listing[j].id
    ensures IdsDistinct(Joined(listing, owners))
    decreases |listing|
  {
    if listing != [] {
      var init, last := listing[..|listing| - 1], listing[|listing| - 1];
      JoinedKeepsIdsDistinct(init, owners);
      JoinedMembers(init, owners);
      var front := Joined(init, owners);
      var r := Joined(listing, owners);
      if last.ownerId in owners {
        assert r == front + [LocalToRepo(last, owners[last.ownerId])];
        forall i, j | 0 <= i < j < |r| ensures r[i].id != r[j].id {
          if j == |r| - 1 {
            assert r[i] in front;
            var k :| 0 <= k < |init| && init[k].ownerId in owners && r[i] == LocalToRepo(init[k], owners[init[k].ownerId]);
            assert listing[k] == init[k] && r[j].id == listing[|listing| - 1].id;
          } else {
            assert r[i] == front[i] && r[j] == front[j];
          }
        }
      } else {
        assert r == front;
      }
    }
  }

  /** When every owner row is present, nothing is dropped. */
  lemma {:induction false} JoinedDropsNothingWhenResolvable(listing: seq<LocalRepo>, owners: map<int, LocalOwner>)
    requires forall i :: 0 <= i < |listing| ==> listing[i].ownerId in owners
    ensures |Joined(listing, owners)| == |listing|
    decreases |listing|
  {
    if listing != [] {
      JoinedDropsNothingWhenResolvable(listing[..|listing| - 1], owners);
    }
  }

  /** A possible result of `getCachedRepos` on the store `s`. */
  ghost predicate IsCacheView(cached: seq<Repo>, s: Store) {
    exists listing :: IsListing(listing, s.repos) && cached == Joined(listing, s.owners)
  }

  /** `getRepoById` on the store `s`: the repo joined with its owner, or nothing. */
  function RepoById(s: Store, repoId: int): (r: Option<Repo>)
    ensures r.Some? <==> repoId in s.repos && s.repos[repoId].ownerId in s.owners
    ensures r.Some? ==> r.value == LocalToRepo(s.repos[repoId], s.owners[s.repos[repoId].ownerId])
  {
    if repoId in s.repos && s.repos[repoId].ownerId in s.owners then
      Some(LocalToRepo(s.repos[repoId], s.owners[s.repos[repoId].ownerId]))
    else None
  }

  // ---------------------------------------------------------------------------
  // Event sequences

  /** The event for the network part of `getRepos`, and the fallback to the cache on an IOException. */
  function ListNetworkEvents(page: int, cached: seq<Repo>, call: Call<seq<RemoteRepo>>): (events: Events)
    ensures 1 <= |events| <= 2
    ensures events[0].Success? <==> call.Responded? && IsSuccessful(call.code)
    ensures events[0].Error? <==> !(call.Responded? && IsSuccessful(call.code))
    ensures call.Responded? && IsSuccessful(call.code) ==>
      events[0] == Success(if call.body.Some? then ReposToDomain(call.body.value) else [])
    ensures |events| == 2 <==> call.IoFailure? && |cached| > 0 && page == 1
    ensures |events| == 2 ==> events[1] == Success(cached)
    ensures call.Responded? && !IsSuccessful(call.code) ==> events[0] == Error("HTTP Error: " + DecimalString(call.code))
    ensures call.IoFailure? ==> events[0] == Error("Network error: " + Templated(call.message))
    ensures call.HttpFailure? ==> events[0] == Error("HTTP error: " + Templated(call.message))
  {
    match call
    case Responded(code, body) =>
      if IsSuccessful(code) then [Success(ReposToDomain(body.GetOr([])))]
      else [Error("HTTP Error: " + DecimalString(code))]
    case IoFailure(message) =>
      [Error("Network error: " + Templated(message))] + if |cached| > 0 && page == 1 then [Success(cached)] else []
    case HttpFailure(message) =>
      [Error("HTTP error: " + Templated(message))]
  }

  /**
   * The events one run of `getRepos(org, page)` emits, given what the cache
   * read gave (`cached`, only read for page 1) and the outcome of the call.
   */
  function ListEvents(page: int, cached: seq<Repo>, call: Call<seq<RemoteRepo>>): (events: Events)
    ensures 3 <= |events| <= 5
    ensures events[0] == Loading(true) && events[|events| - 1] == Loading(false)
    ensures forall i :: 0 < i < |events| - 1 ==> !events[i].Loading?
    ensures page != 1 ==> |events| == 3 && events[1] == ListNetworkEvents(page, cached, call)[0]
    ensures page == 1 && |cached| > 0 ==>
      events[1] == Success(cached) && events[2..|events| - 1] == ListNetworkEvents(page, cached, call)
    ensures !(page == 1 && |cached| > 0) ==> events[1..|events| - 1] == ListNetworkEvents(page, cached, call)
  {
    [Loading(true)]
    + (if |cached| > 0 && page == 1 then [Success(cached)] else [])
    + ListNetworkEvents(page, cached, call)
    + [Loading(false)]
  }

  /** The single event of the network part of `searchRepos`. */
  function SearchNetworkEvent(call: Call<SearchResponse>): (e: NetworkResult<seq<Repo>>)
    ensures e.Success? <==> call.Responded? && IsSuccessful(call.code)
    ensures e.Error? <==> !(call.Responded? && IsSuccessful(call.code))
    ensures call.Responded? && IsSuccessful(call.code) ==>
      e.data == (if call.body.Some? then ReposToDomain(call.body.value.items) else [])
    ensures call.Responded? && !IsSuccessful(call.code) ==> e == Error("HTTP Error: " + DecimalString(call.code))
    ensures call.IoFailure? ==> e == Error("Network error: " + Templated(call.message))
    ensures call.HttpFailure? ==> e == Error("HTTP error: " + Templated(call.message))
  {
    match call
    case Responded(code, body) =>
      if IsSuccessful(code) then Success(if body.Some? then ReposToDomain(body.value.items) else [])
      else Error("HTTP Error: " + DecimalString(code))
    case IoFailure(message) => Error("Network error: " + Templated(message))
    case HttpFailure(message) => Error("HTTP error: " + Templated(message))
  }

  /** The events one run of `searchRepos(query, page)` emits. */
  function SearchEvents(call: Call<SearchResponse>): (events: Events)
    ensures |events| == 3 && events[0] == Loading(true) && events[2] == Loading(false)
    ensures events[1].Success? <==> call.Responded? && IsSuccessful(call.code)
    ensures events[1].Error? <==> !(call.Responded? && IsSuccessful(call.code))
    ensures call.Responded? && IsSuccessful(call.code) ==>
      events[1] == Success(if call.body.Some? then ReposToDomain(call.body.value.items) else [])
  {
    [Loading(true), SearchNetworkEvent(call), Loading(false)]
  }

  // ---------------------------------------------------------------------------
  // Store effects

  /** The store after one run of `getRepos(_, page)` with the given outcome. */
  function StoreAfterList(s: Store, page: int, call: Call<seq<RemoteRepo>>): (t: Store)
    ensures t != s ==> call.Responded? && IsSuccessful(call.code)
    ensures WellKeyed(s) ==> WellKeyed(t)
  {
    if call.Responded? && IsSuccessful(call.code) then
      var remote := call.body.GetOr([]);
      var base := if page == 1 then OwnersCleared(ReposCleared(s)) else s;
      WithRepos(WithOwners(base, OwnersToLocal(remote)), ReposToLocal(remote))
    else s
  }

  /** The store after one run of `searchRepos` with the given outcome. */
  function StoreAfterSearch(s: Store, call: Call<SearchResponse>): (t: Store)
    ensures t != s ==> call.Responded? && IsSuccessful(call.code) && call.body.Some?
    ensures WellKeyed(s) ==> WellKeyed(t)
  {
    if call.Responded? && IsSuccessful(call.code) && call.body.Some? then
      var items := call.body.value.items;
      WithRepos(WithOwners(s, OwnersToLocal(items)), ReposToLocal(items))
    else s
  }

  /** The repository layer over the GitHub API and the local store. */
  class RepoRepositoryImpl {
    const api: GithubApi
    const dao: RepoDao

    constructor(api: GithubApi, dao: RepoDao)
      ensures this.api == api && this.dao == dao
    {
      this.api := api;
      this.dao := dao;
    }

    /**
     * Lists one page of the organisation's repos: the cache first (page 1
     * only), then the network result; a successful page 1 replaces the store.
     * `cached` is what the cache read gave (empty beyond page 1).
     */
    method GetRepos(org: string, page: int) returns (events: Events, ghost cached: seq<Repo>)
      requires dao.Valid()
      modifies dao
      ensures dao.Valid()
      ensures dao.Snapshot() == StoreAfterList(old(dao.Snapshot()), page, api.getOrganizationRepos(org, page))
      ensures page == 1 ==> IsCacheView(cached, old(dao.Snapshot()))
      ensures page != 1 ==> cached == []
      ensures events == ListEvents(page, cached, api.getOrganizationRepos(org, page))
    {
      events := [Loading(true)];
      var cachedRepos: seq<Repo> := [];
      if page == 1 {
        cachedRepos := GetCachedRepos();
      }
      cached := cachedRepos;
      if |cachedRepos| > 0 && page == 1 {
        events := events + [Success(cachedRepos)];
      }
      var network := FetchPage(org, page, cachedRepos);
      events := events + network + [Loading(false)];
    }

    /**
     * The `try` block of `getRepos` and its handlers: the call, the store
     * update on success, and the events emitted before `Loading(false)`.
     */
    method FetchPage(org: string, page: int, cachedRepos: seq<Repo>) returns (network: Events)
      requires dao.Valid()
      modifies dao
      ensures dao.Valid()
      ensures dao.Snapshot() == StoreAfterList(old(dao.Snapshot()), page, api.getOrganizationRepos(org, page))
      ensures network == ListNetworkEvents(page, cachedRepos, api.getOrganizationRepos(org, page))
    {
      var response := api.getOrganizationRepos(org, page);
      match response {
        case Responded(code, body) =>
          if IsSuccessful(code) {
            var remoteRepos := body.GetOr([]);
            if page == 1 {
              dao.ClearRepos();
              dao.ClearOwners();
            }
            dao.InsertOwners(OwnersToLocal(remoteRepos));
            dao.InsertRepos(ReposToLocal(remoteRepos));
            network := [Success(ReposToDomain(remoteRepos))];
          } else {
            network := [Error("HTTP Error: " + DecimalString(code))];
          }
        case IoFailure(message) =>
          network := [Error("Network error: " + Templated(message))];
          if |cachedRepos| > 0 && page == 1 {
            network := network + [Success(cachedRepos)];
          }
        case HttpFailure(message) =>
          network := [Error("HTTP error: " + Templated(message))];
      }
    }

    /** Searches the organisation's repos; the store is only added to, never read or cleared. */
    method SearchRepos(query: string, page: int) returns (events: Events)
      requires dao.Valid()
      modifies dao
      ensures dao.Valid()
      ensures dao.Snapshot() == StoreAfterSearch(old(dao.Snapshot()), api.searchRepos(SearchScope + query, page))
      ensures events == SearchEvents(api.searchRepos(SearchScope + query, page))
    {
      events := [Loading(true)];
      var response := api.searchRepos(SearchScope + query, page);
      match response {
        case Responded(code, body) =>
          if IsSuccessful(code) {
            if body.Some? {
              dao.InsertOwners(OwnersToLocal(body.value.items));
              dao.InsertRepos(ReposToLocal(body.value.items));
            }
            var repos := if body.Some? then ReposToDomain(body.value.items) else [];
            events := events + [Success(repos)];
          } else {
            events := events + [Error("HTTP Error: " + DecimalString(code))];
          }
        case IoFailure(message) =>
          events := events + [Error("Network error: " + Templated(message))];
        case HttpFailure(message) =>
          events := events + [Error("HTTP error: " + Templated(message))];
      }
      events := events + [Loading(false)];
    }

    /** The repo stored under `repoId` joined with its owner; nothing if either row is missing. */
    function GetRepoById(repoId: int): (r: Option<Repo>)
      reads dao
      ensures r == RepoById(dao.Snapshot(), repoId)
    {
      match dao.GetRepoById(repoId)
      case None => None
      case Some(localRepo) =>
        match dao.GetOwner(localRepo.ownerId)
        case None => None
        case Some(owner) => Some(LocalToRepo(localRepo, owner))
    }

    /**
     * One read of the stored repos, newest first, each joined with its owner;
     * repos whose owner row is missing are dropped.
     */
    method GetCachedRepos() returns (repos: seq<Repo>)
      requires dao.Valid()
      ensures IsCacheView(repos, dao.Snapshot())
      ensures |repos| <= |dao.repos|
      ensures NewestFirst(repos)
      ensures IdsDistinct(repos)
      ensures forall i :: 0 <= i < |repos| ==> RepoById(dao.Snapshot(), repos[i].id) == Some(repos[i])
      ensures forall k :: k in dao.repos && RepoById(dao.Snapshot(), k).Some? ==> RepoById(dao.Snapshot(), k).value in repos
      ensures OwnersResolvable(dao.Snapshot()) ==> |repos| == |dao.repos|
    {
      var localReposList := dao.GetRepos();
      repos := [];
      for i := 0 to |localReposList|
        invariant repos == Joined(localReposList[..i], dao.owners)
      {
        var localRepo := localReposList[i];
        var owner := dao.GetOwner(localRepo.ownerId);
        assert localReposList[..i + 1] == localReposList[..i] + [localRepo];
        if owner.Some? {
          repos := repos + [LocalToRepo(localRepo, owner.value)];
        }
      }
      assert localReposList[..|localReposList|] == localReposList;
      var s := dao.Snapshot();
      JoinedMembers(localReposList, dao.owners);
      JoinedKeepsOrder(localReposList, dao.owners);
      JoinedKeepsIdsDistinct(localReposList, dao.owners);
      forall i | 0 <= i < |repos| ensures RepoById(s, repos[i].id) == Some(repos[i]) {
        assert repos[i] in repos;
        var k :| 0 <= k < |localReposList| && localReposList[k].ownerId in dao.owners
                 && repos[i] == LocalToRepo(localReposList[k], dao.owners[localReposList[k].ownerId]);
      }
      forall k | k in dao.repos && RepoById(s, k).Some? ensures RepoById(s, k).value in repos {
        var i :| 0 <= i < |localReposList| && localReposList[i] == dao.repos[k];
      }
      if OwnersResolvable(s) {
        JoinedDropsNothingWhenResolvable(localReposList, dao.owners);
      }
    }
  }
}
