/**
 * Properties of the synchroniser: the shape of the event sequences it emits,
 * and what a run does to the store.
 */
module RepositoryProperties {
  import opened Wrappers
  import opened Models
  import opened Remote
  import opened Text
  import opened Tables
  import opened Mappers
  import opened Dao
  import opened Repository

  // ---------------------------------------------------------------------------
  // Event sequences of getRepos

  /** Beyond page 1 the cache plays no part: the network result follows `Loading(true)` directly. */
  lemma LaterPagesIgnoreCache(page: int, cached: seq<Repo>, other: seq<Repo>, call: Call<seq<RemoteRepo>>)
    requires page != 1
    ensures ListEvents(page, cached, call) == ListEvents(page, other, call)
    ensures ListEvents(page, cached, call) == [Loading(true), ListNetworkEvents(page, [], call)[0], Loading(false)]
  {
  }

  /** Page 1, a non-empty cache and a successful response: cache first, then the fresh list. */
  lemma FirstPageCacheThenNetwork(cached: seq<Repo>, code: int, remote: seq<RemoteRepo>)
    requires |cached| > 0 && IsSuccessful(code)
    ensures ListEvents(1, cached, Responded(code, Some(remote)))
      == [Loading(true), Success(cached), Success(ReposToDomain(remote)), Loading(false)]
  {
  }

  /** A successful response without a body counts as an empty list. */
  lemma MissingBodyIsEmptyList(page: int, cached: seq<Repo>, code: int)
    requires IsSuccessful(code)
    ensures ListNetworkEvents(page, cached, Responded(code, None)) == [Success([])]
  {
  }

  /**
   * Page 1, a non-empty cache and an IOException: the cache is emitted before
   * the call and once more after the error.
   */
  lemma FirstPageTransportFailureFallsBack(cached: seq<Repo>, message: Option<string>)
    requires |cached| > 0
    ensures ListEvents(1, cached, IoFailure(message))
      == [Loading(true), Success(cached), Error("Network error: " + Templated(message)), Success(cached), Loading(false)]
  {
  }

  /** An HTTP failure (non-2xx status or HttpException) is reported, never followed by the cache. */
  lemma HttpFailureHasNoFallback(page: int, cached: seq<Repo>, call: Call<seq<RemoteRepo>>)
    requires (call.Responded? && !IsSuccessful(call.code)) || call.HttpFailure?
    ensures var events := ListEvents(page, cached, call);
      events[|events| - 2].Error? && events[|events| - 2].message ==
        (if call.Responded? then "HTTP Error: " + DecimalString(call.code) else "HTTP error: " + Templated(call.message))
    ensures |ListNetworkEvents(page, cached, call)| == 1
  {
  }

  /** The status code can be read back from the HTTP error message. */
  lemma HttpErrorNamesStatus(code: int)
    requires code >= 0
    ensures var m := "HTTP Error: " + DecimalString(code);
      m[..12] == "HTTP Error: " && AllDigits(m[12..]) && DigitsValue(m[12..]) == code
  {
    var m := "HTTP Error: " + DecimalString(code);
    assert m[12..] == DecimalString(code);
  }

  // ---------------------------------------------------------------------------
  // Store effects of getRepos and searchRepos

  /** A failed call leaves the store exactly as it was. */
  lemma FailureLeavesStore(s: Store, page: int, call: Call<seq<RemoteRepo>>, searchCall: Call<SearchResponse>)
    ensures !(call.Responded? && IsSuccessful(call.code)) ==> StoreAfterList(s, page, call) == s
    ensures !(searchCall.Responded? && IsSuccessful(searchCall.code)) ==> StoreAfterSearch(s, searchCall) == s
  {
  }

  /** A successful page 1 replaces the whole store: what was there before makes no difference. */
  lemma FirstPageReplacesStore(s: Store, other: Store, call: Call<seq<RemoteRepo>>)
    requires call.Responded? && IsSuccessful(call.code)
    ensures StoreAfterList(s, 1, call) == StoreAfterList(other, 1, call)
    ensures var remote := call.body.GetOr([]);
      StoreAfterList(s, 1, call).repos.Keys == KeysOf(ReposToLocal(remote), RepoKey)
      && StoreAfterList(s, 1, call).owners.Keys == KeysOf(OwnersToLocal(remote), OwnerKey)
  {
    assert OwnersCleared(ReposCleared(s)) == Store(map[], map[]);
    assert OwnersCleared(ReposCleared(other)) == Store(map[], map[]);
  }

  /** Refreshing page 1 twice with the same response gives the same store as once (replace, not duplicate). */
  lemma FirstPageRefreshIdempotent(s: Store, call: Call<seq<RemoteRepo>>)
    ensures StoreAfterList(StoreAfterList(s, 1, call), 1, call) == StoreAfterList(s, 1, call)
  {
    if call.Responded? && IsSuccessful(call.code) {
      FirstPageReplacesStore(StoreAfterList(s, 1, call), s, call);
    }
  }

  /** Inserting a batch never removes a row; rows the batch does not carry keep their fields. */
  lemma {:induction false} BatchOnlyAdds(s: Store, remote: seq<RemoteRepo>)
    ensures var t := WithRepos(WithOwners(s, OwnersToLocal(remote)), ReposToLocal(remote));
      && s.repos.Keys <= t.repos.Keys && s.owners.Keys <= t.owners.Keys
      && (forall k :: k in s.repos && k !in KeysOf(ReposToLocal(remote), RepoKey) ==> t.repos[k] == s.repos[k])
      && (forall k :: k in s.owners && k !in KeysOf(OwnersToLocal(remote), OwnerKey) ==> t.owners[k] == s.owners[k])
  {
  }

  /** Pages after the first only add to the store. */
  lemma LaterPageOnlyAdds(s: Store, page: int, call: Call<seq<RemoteRepo>>)
    requires page != 1
    ensures s.repos.Keys <= StoreAfterList(s, page, call).repos.Keys
    ensures s.owners.Keys <= StoreAfterList(s, page, call).owners.Keys
  {
    if call.Responded? && IsSuccessful(call.code) {
      BatchOnlyAdds(s, call.body.GetOr([]));
    }
  }

  /** A repo the batch carries is stored with its owner row beside it. */
  lemma BatchRowOwnerStored(s: Store, remote: seq<RemoteRepo>, id: int)
    requires id in KeysOf(ReposToLocal(remote), RepoKey)
    ensures var t := WithRepos(WithOwners(s, OwnersToLocal(remote)), ReposToLocal(remote));
      id in t.repos && t.repos[id].ownerId in t.owners
  {
    var ls, os := ReposToLocal(remote), OwnersToLocal(remote);
    var mid := WithOwners(s, os);
    var t := WithRepos(mid, ls);
    UpsertTakesBatchRow(mid.repos, ls, RepoKey, id);
    var i :| 0 <= i < |ls| && ls[i] == t.repos[id];
    assert OwnerKey(os[i]) == t.repos[id].ownerId;
  }

  /** A repo that resolved before a batch insert still resolves after it. */
  lemma BatchKeepsRepoResolving(s: Store, remote: seq<RemoteRepo>, id: int)
    requires RepoById(s, id).Some?
    ensures RepoById(WithRepos(WithOwners(s, OwnersToLocal(remote)), ReposToLocal(remote)), id).Some?
  {
    if id in KeysOf(ReposToLocal(remote), RepoKey) {
      BatchRowOwnerStored(s, remote, id);
    }
  }

  /** A search never removes anything from the store. */
  lemma SearchOnlyAdds(s: Store, call: Call<SearchResponse>)
    ensures s.repos.Keys <= StoreAfterSearch(s, call).repos.Keys
    ensures s.owners.Keys <= StoreAfterSearch(s, call).owners.Keys
    ensures forall id :: RepoById(s, id).Some? ==> RepoById(StoreAfterSearch(s, call), id).Some?
  {
    if call.Responded? && IsSuccessful(call.code) && call.body.Some? {
      var items := call.body.value.items;
      forall id | RepoById(s, id).Some? ensures RepoById(StoreAfterSearch(s, call), id).Some? {
        BatchKeepsRepoResolving(s, items, id);
      }
    }
  }

  /** Owners are inserted before their repos, so every inserted repo's owner row is present. */
  lemma {:induction false} BatchKeepsOwnersResolvable(s: Store, remote: seq<RemoteRepo>)
    requires OwnersResolvable(s)
    ensures OwnersResolvable(WithRepos(WithOwners(s, OwnersToLocal(remote)), ReposToLocal(remote)))
  {
    var ls, os := ReposToLocal(remote), OwnersToLocal(remote);
    var mid := WithOwners(s, os);
    var t := WithRepos(mid, ls);
    forall k | k in t.repos ensures t.repos[k].ownerId in t.owners {
      if k in KeysOf(ls, RepoKey) {
        BatchRowOwnerStored(s, remote, k);
      }
    }
  }

  /** Every run of getRepos keeps every stored repo's owner row present. */
  lemma ListKeepsOwnersResolvable(s: Store, page: int, call: Call<seq<RemoteRepo>>)
    requires OwnersResolvable(s)
    ensures OwnersResolvable(StoreAfterList(s, page, call))
  {
    if call.Responded? && IsSuccessful(call.code) {
      var base := if page == 1 then OwnersCleared(ReposCleared(s)) else s;
      assert OwnersResolvable(base);
      BatchKeepsOwnersResolvable(base, call.body.GetOr([]));
    }
  }

  /** Every run of searchRepos keeps every stored repo's owner row present. */
  lemma SearchKeepsOwnersResolvable(s: Store, call: Call<SearchResponse>)
    requires OwnersResolvable(s)
    ensures OwnersResolvable(StoreAfterSearch(s, call))
  {
    if call.Responded? && IsSuccessful(call.code) && call.body.Some? {
      BatchKeepsOwnersResolvable(s, call.body.value.items);
    }
  }

  /**
   * A fetched repo reads back from the store as the domain repo the fetch
   * emitted, provided no later entry of the batch has its id and the batch
   * agrees on its owner's fields.
   */
  lemma {:induction false} FetchedRepoReadsBack(s: Store, remote: seq<RemoteRepo>, i: int)
    requires 0 <= i < |remote|
    requires forall j :: i < j < |remote| ==> remote[j].id != remote[i].id
    requires forall j :: 0 <= j < |remote| && remote[j].owner.id == remote[i].owner.id ==> remote[j].owner == remote[i].owner
    ensures RepoById(WithRepos(WithOwners(s, OwnersToLocal(remote)), ReposToLocal(remote)), remote[i].id)
      == Some(RemoteToRepo(remote[i]))
  {
    var ls, os := ReposToLocal(remote), OwnersToLocal(remote);
    var r := remote[i];
    var t := WithRepos(WithOwners(s, os), ls);
    var owners, repos := t.owners, t.repos;
    assert LastWithKey(ls, RepoKey, i);
    assert repos[r.id] == RepoToLocal(r);
    assert OwnerKey(os[i]) == r.owner.id;
    UpsertTakesBatchRow(s.owners, os, OwnerKey, r.owner.id);
    var j :| 0 <= j < |os| && os[j] == owners[r.owner.id];
    assert os[j] == OwnerToLocal(r.owner);
    RepoRoundTrip(r);
  }

  /** The round trip on a run of getRepos: after a successful fetch, each fetched repo reads back as emitted. */
  lemma ListedRepoReadsBack(s: Store, page: int, code: int, remote: seq<RemoteRepo>, i: int)
    requires IsSuccessful(code)
    requires 0 <= i < |remote|
    requires forall j :: i < j < |remote| ==> remote[j].id != remote[i].id
    requires forall j :: 0 <= j < |remote| && remote[j].owner.id == remote[i].owner.id ==> remote[j].owner == remote[i].owner
    ensures RepoById(StoreAfterList(s, page, Responded(code, Some(remote))), remote[i].id)
      == Some(ReposToDomain(remote)[i])
  {
    var base := if page == 1 then OwnersCleared(ReposCleared(s)) else s;
    FetchedRepoReadsBack(base, remote, i);
  }

  /**
   * A repo resolves once it and its owner are inserted, and stops resolving
   * when the owners table is cleared, though nothing cleared the repo table.
   */
  lemma {:induction false} OwnerDeletionHidesRepo(s: Store, lr: LocalRepo, lo: LocalOwner)
    requires lr.ownerId == lo.id
    ensures var t := WithRepos(WithOwners(s, [lo]), [lr]);
      RepoById(t, lr.id) == Some(LocalToRepo(lr, lo)) && RepoById(OwnersCleared(t), lr.id).None?
  {
    var t := WithRepos(WithOwners(s, [lo]), [lr]);
    assert LastWithKey([lr], RepoKey, 0);
    assert LastWithKey([lo], OwnerKey, 0);
    assert t.repos[lr.id] == lr && t.owners[lo.id] == lo;
  }
}
