# CodeAtlas core in Dafny

CodeAtlas is an Android client that browses the GitHub repositories of the
`google` organisation. Its core is a cache-then-network synchroniser
(`RepoRepositoryImpl`) over a two-table local store (`RepoDao`: repos and
owners, owners cascading to repos), record mappers between the remote, local
and domain shapes (`RepoMappers`), and two view models: the list screen's
state machine (`RepoListViewModel`) and the details screen's per-emission
update (`RepoDetailsViewModel`).

The model follows the source file by file:

- `models.dfy`, `wrappers.dfy`, `remote.dfy`: the records, `NetworkResult`,
  and the GitHub API as two functions from arguments to a call outcome
  (`Responded(code, body)`, `IoFailure(message)`, `HttpFailure(message)`).
  A response is successful when its status is in 200..299.
- `text.dfy`: the lexicographic order on strings that `ORDER BY createdAt
  DESC` uses, and the decimal rendering of a status code inside
  `"HTTP Error: ${code}"`. A null exception message renders as `null`.
- `mappers.dfy`: the six mapping functions and their round trips.
- `tables.dfy`: insert-or-replace of a batch into a table keyed by id.
- `repo_dao.dfy`: the store as a class with two `map` fields; inserts
  replace by id, `clearOwners` also deletes every repo whose owner row it
  removed, and `getRepos` builds a listing sorted newest first. SQL leaves
  the order of equal `createdAt` values open, so a listing is specified
  relationally (`IsListing`: the stored rows, each once, newest first) and
  not as one fixed sequence.
- `repo_repository.dfy`: `getRepos` and `searchRepos` as methods that
  change the store and return the events the flow emits, proved against the
  pure `ListEvents`/`SearchEvents` and `StoreAfterList`/`StoreAfterSearch`;
  `getCachedRepos` as the loop that joins each listed repo with its owner.
  Because the listing order is only determined up to ties, the page-1 events
  are stated for the cache view the run read, one of the possible views of
  the store before the call.
- `repo_repository_props.dfy`: event-sequence and store lemmas.
- `repo_list.dfy`, `repo_list_props.dfy`: the list view model as a class
  whose methods are proved against `Handle` (events), `Apply`/`Run`
  (collected results) and `Dispatch` (the query observer), and lemmas
  that run the view model over the synchroniser's own event sequences.
- `repo_details.dfy`: the details view model.

Behaviour the code has and the model keeps:

- On page 1 with a non-empty cache and a transport failure, `getRepos` emits
  the cache both before the call and after the error:
  `[Loading(true), Success(cache), Error(..), Success(cache), Loading(false)]`
  (`FirstPageTransportFailureFallsBack`).
- Every list load and search ends in `Loading(false)`, and the view model's
  `Loading` branch clears `error`; so once a load completes the screen
  holds no error message, whatever failed among the modelled call outcomes (`FlowsEndIdleWithoutError`).
- The list view model launches page 1 twice on creation: `loadRepos()` and
  the query observer's first, empty query (`CreationLoadsFirstPageTwice`).
- `LoadNextPage` during a search launches a list load, whose results are
  then appended after the search results, since the list collector looks
  only at `currentPage`.

## Model

| member | source | states |
|---|---|---|
| Text.StrLeqReflexive | app/src/main/java/com/ms/codeatlas/core/data/local/dao/RepoDao.kt:42 | the createdAt order is reflexive |
| Text.StrLeqTotal | app/src/main/java/com/ms/codeatlas/core/data/local/dao/RepoDao.kt:42 | any two createdAt strings are comparable |
| Text.StrLeqTransitive | app/src/main/java/com/ms/codeatlas/core/data/local/dao/RepoDao.kt:42 | the createdAt order is transitive |
| Text.StrLeqAntisymmetric | app/src/main/java/com/ms/codeatlas/core/data/local/dao/RepoDao.kt:42 | two strings ordered both ways are equal |
| Text.PrefixSortsFirst | app/src/main/java/com/ms/codeatlas/core/data/local/dao/RepoDao.kt:42 | under the createdAt order (SQLite BINARY collation) a prefix sorts no later than the string it starts |
| Text.FirstDifferenceDecides | app/src/main/java/com/ms/codeatlas/core/data/local/dao/RepoDao.kt:42 | past a common prefix the first differing code point decides the createdAt order, strictly |
| Text.NatDigits | app/src/main/java/com/ms/codeatlas/core/data/repository/RepoRepositoryImpl.kt:69 | the rendering of a non-negative number is non-empty, all digits, without a leading zero |
| Text.NatDigitsValue | app/src/main/java/com/ms/codeatlas/core/data/repository/RepoRepositoryImpl.kt:69 | the digits read back as the number |
| Text.DecimalString | app/src/main/java/com/ms/codeatlas/core/data/repository/RepoRepositoryImpl.kt:69 | the rendered status code reads back as the code, with a leading minus for a negative one |
| Text.Templated | app/src/main/java/com/ms/codeatlas/core/data/repository/RepoRepositoryImpl.kt:72 | an exception message appears in the error text as is; the text reads "null" exactly when the message is missing or is itself "null" |
| Remote.IsSuccessful | app/src/main/java/com/ms/codeatlas/core/data/repository/RepoRepositoryImpl.kt:54 | a response counts as successful exactly when its status is 2xx |
| Mappers.ReposToLocal | app/src/main/java/com/ms/codeatlas/core/data/repository/RepoRepositoryImpl.kt:64 | one local row per remote repo, same order, each its toLocal |
| Mappers.OwnersToLocal | app/src/main/java/com/ms/codeatlas/core/data/repository/RepoRepositoryImpl.kt:63 | one owner row per remote repo, same order, each its owner's toLocal |
| Mappers.ReposToDomain | app/src/main/java/com/ms/codeatlas/core/data/repository/RepoRepositoryImpl.kt:66 | the emitted list is the remote list mapped by toRepo in the same order |
| Mappers.RepoRoundTrip | app/src/main/java/com/ms/codeatlas/core/data/mapper/RepoMappers.kt:13-91 | remote to local (with the owner's local row) to domain equals remote to domain |
| Mappers.OwnerRoundTrip | app/src/main/java/com/ms/codeatlas/core/data/mapper/RepoMappers.kt:29-64 | owner remote to local to domain equals remote to domain |
| Mappers.LocalPairDeterminesRemote | app/src/main/java/com/ms/codeatlas/core/data/mapper/RepoMappers.kt:13-35 | the local repo row and owner row together determine the remote record: no field is lost |
| Mappers.LocalToRepoUsesOwnerArgument | app/src/main/java/com/ms/codeatlas/core/data/mapper/RepoMappers.kt:42-53 | toRepo ignores ownerId, takes the owner from its argument, and keeps the id link when the owner matches |
| Mappers.LocalToRepoKeepsFields | app/src/main/java/com/ms/codeatlas/core/data/mapper/RepoMappers.kt:42-64 | toRepo copies every scalar field and the owner's three fields |
| Mappers.RepoToLocal | app/src/main/java/com/ms/codeatlas/core/data/mapper/RepoMappers.kt:13-24 | a local repo row keeps the remote id and every scalar field, and stores the owner as its id (the foreign key) |
| Mappers.OwnerToLocal | app/src/main/java/com/ms/codeatlas/core/data/mapper/RepoMappers.kt:29-35 | a local owner row keeps the remote owner's id, login and avatar URL |
| Mappers.LocalToRepo | app/src/main/java/com/ms/codeatlas/core/data/mapper/RepoMappers.kt:42-53 | the domain repo takes id and scalar fields from the row and its owner from the owner argument, not from ownerId |
| Mappers.LocalToOwner | app/src/main/java/com/ms/codeatlas/core/data/mapper/RepoMappers.kt:58-64 | the domain owner keeps the row's id, login and avatar URL |
| Mappers.RemoteToRepo | app/src/main/java/com/ms/codeatlas/core/data/mapper/RepoMappers.kt:69-80 | the domain repo keeps the remote id and scalar fields, with the remote owner mapped by RemoteToOwner |
| Mappers.RemoteToOwner | app/src/main/java/com/ms/codeatlas/core/data/mapper/RepoMappers.kt:85-91 | the domain owner keeps the remote owner's id, login and avatar URL |
| Tables.UpsertFacts | app/src/main/java/com/ms/codeatlas/core/data/local/dao/RepoDao.kt:25-35 | Upsert, the REPLACE batch insert: afterwards the keys are the old keys plus the batch's, the last row with a key is stored under it, keys outside the batch keep their rows, and rows stay under their own keys |
| Tables.UpsertTakesBatchRow | app/src/main/java/com/ms/codeatlas/core/data/local/dao/RepoDao.kt:25-35 | a key the batch carries holds one of the batch's rows with that key |
| Tables.KeyedValuesCount | app/src/main/java/com/ms/codeatlas/core/data/local/dao/RepoDao.kt:37-43 | a table keyed by id has as many distinct rows as keys |
| Dao.WithRepos | app/src/main/java/com/ms/codeatlas/core/data/local/dao/RepoDao.kt:19-26 | inserting repos replaces by id: the batch's keys added, last row per key stored, other repos and all owners unchanged, rows stay under their ids |
| Dao.WithOwners | app/src/main/java/com/ms/codeatlas/core/data/local/dao/RepoDao.kt:28-35 | inserting owners replaces by id: the batch's keys added, last row per key stored, other owners and all repos unchanged, rows stay under their ids |
| Dao.ReposCleared | app/src/main/java/com/ms/codeatlas/core/data/local/dao/RepoDao.kt:66-67 | deleting all repos empties the repo table and leaves the owner table as it was |
| Dao.OwnersCleared | app/src/main/java/com/ms/codeatlas/core/data/local/dao/RepoDao.kt:72-73 | deleting all owners empties the owner table; through the ON DELETE CASCADE of LocalOwner.kt a repo survives exactly when its owner row was already absent, unchanged |
| Dao.ListingCoversTable | app/src/main/java/com/ms/codeatlas/core/data/local/dao/RepoDao.kt:42-43 | an IsListing answer over a table keyed by id has one entry per key, each the row stored under its id |
| Dao.ConsKeepsSorted | app/src/main/java/com/ms/codeatlas/core/data/local/dao/RepoDao.kt:42 | a row no older than every row of a newest-first listing can be put in front of it |
| Dao.InsertByCreatedDesc | app/src/main/java/com/ms/codeatlas/core/data/local/dao/RepoDao.kt:42 | placing a row into a newest-first listing adds exactly that row and keeps it newest first |
| Dao.MultisetOfSetHasNoRepeats | app/src/main/java/com/ms/codeatlas/core/data/local/dao/RepoDao.kt:37-43 | a listing of a table's rows holds each row once |
| Dao.RepoDao.constructor | app/src/main/java/com/ms/codeatlas/core/data/local/dao/RepoDao.kt:16-17 | a fresh store has both tables empty |
| Dao.RepoDao.InsertRepos | app/src/main/java/com/ms/codeatlas/core/data/local/dao/RepoDao.kt:19-26 | each inserted repo is stored under its id with exactly its fields (last one wins); other repos and all owners unchanged |
| Dao.RepoDao.InsertOwners | app/src/main/java/com/ms/codeatlas/core/data/local/dao/RepoDao.kt:28-35 | each inserted owner is stored under its id with exactly its fields; other owners and all repos unchanged |
| Dao.RepoDao.GetRepos | app/src/main/java/com/ms/codeatlas/core/data/local/dao/RepoDao.kt:37-43 | the listing holds every stored repo exactly once, as stored, ordered by createdAt descending |
| Dao.RepoDao.GetRepoById | app/src/main/java/com/ms/codeatlas/core/data/local/dao/RepoDao.kt:45-52 | present exactly when a repo is stored under the id, and then that repo |
| Dao.RepoDao.GetOwner | app/src/main/java/com/ms/codeatlas/core/data/local/dao/RepoDao.kt:54-61 | present exactly when an owner is stored under the id, and then that owner |
| Dao.RepoDao.ClearRepos | app/src/main/java/com/ms/codeatlas/core/data/local/dao/RepoDao.kt:63-67 | the repo table is empty and the owner table untouched |
| Dao.RepoDao.ClearOwners | app/src/main/java/com/ms/codeatlas/core/data/local/dao/RepoDao.kt:69-73 | the owner table is empty and exactly the repos whose owner row was deleted are gone (cascade), the rest unchanged |
| Repository.Joined | app/src/main/java/com/ms/codeatlas/core/data/repository/RepoRepositoryImpl.kt:142-150 | joining a listing with the owners never yields more repos than rows |
| Repository.JoinedMembers | app/src/main/java/com/ms/codeatlas/core/data/repository/RepoRepositoryImpl.kt:144-149 | a repo is in the join exactly when some listed row has a stored owner, and is that row with that owner |
| Repository.JoinedKeepsOrder | app/src/main/java/com/ms/codeatlas/core/data/repository/RepoRepositoryImpl.kt:141-149 | the join of a newest-first listing is newest first |
| Repository.JoinedKeepsIdsDistinct | app/src/main/java/com/ms/codeatlas/core/data/repository/RepoRepositoryImpl.kt:141-149 | the join of a listing of a table's rows has distinct ids |
| Repository.JoinedDropsNothingWhenResolvable | app/src/main/java/com/ms/codeatlas/core/data/repository/RepoRepositoryImpl.kt:144-149 | when every owner row is present, no repo is dropped |
| Repository.RepoById | app/src/main/java/com/ms/codeatlas/core/data/repository/RepoRepositoryImpl.kt:125-132 | a repo is found exactly when both its row and its owner's row are stored, and is their join |
| Repository.ListNetworkEvents | app/src/main/java/com/ms/codeatlas/core/data/repository/RepoRepositoryImpl.kt:52-78 | the network part of getRepos: a Success iff the status is 2xx, carrying the mapped body (an empty list when the body is missing), else an Error with the exact text of its handler ("HTTP Error: " and the code, "Network error: " or "HTTP error: " and the message); a second event exactly on an IOException on page 1 with a non-empty cache, repeating the cache |
| Repository.SearchNetworkEvent | app/src/main/java/com/ms/codeatlas/core/data/repository/RepoRepositoryImpl.kt:94-113 | the network event of searchRepos is a Success iff the status is 2xx, carrying the mapped items (an empty list when the body is missing), else an Error with the exact text of its handler ("HTTP Error: " and the code, "Network error: " or "HTTP error: " and the message) |
| Repository.ListEvents | app/src/main/java/com/ms/codeatlas/core/data/repository/RepoRepositoryImpl.kt:38-82 | a run emits 3 to 5 events, Loading(true) first, Loading(false) last and none in between; on page 1 with a non-empty cache the cache comes right after Loading(true), whatever the call returned, then the network events; otherwise no cache event, only the network events; beyond page 1 exactly one network event |
| Repository.SearchEvents | app/src/main/java/com/ms/codeatlas/core/data/repository/RepoRepositoryImpl.kt:91-117 | a search emits Loading(true), one Success iff the response was 2xx (else one Error), Loading(false); the Success carries the mapped items, an empty list when the body is missing |
| Repository.StoreAfterList | app/src/main/java/com/ms/codeatlas/core/data/repository/RepoRepositoryImpl.kt:52-78 | only a successful list call changes the store; rows stay under their own ids |
| Repository.StoreAfterSearch | app/src/main/java/com/ms/codeatlas/core/data/repository/RepoRepositoryImpl.kt:94-113 | only a successful search with a body changes the store; rows stay under their own ids |
| Repository.RepoRepositoryImpl.constructor | app/src/main/java/com/ms/codeatlas/core/data/repository/RepoRepositoryImpl.kt:25-28 | the repository holds the given API and store |
| Repository.RepoRepositoryImpl.GetRepos | app/src/main/java/com/ms/codeatlas/core/data/repository/RepoRepositoryImpl.kt:38-82 | the store becomes StoreAfterList of the old store and the events are ListEvents of what the cache read gave: a cache view of the old store on page 1, nothing beyond it |
| Repository.RepoRepositoryImpl.FetchPage | app/src/main/java/com/ms/codeatlas/core/data/repository/RepoRepositoryImpl.kt:52-78 | the call, the store update on success (cleared first on page 1) and the events of the try block and its handlers |
| Repository.RepoRepositoryImpl.SearchRepos | app/src/main/java/com/ms/codeatlas/core/data/repository/RepoRepositoryImpl.kt:91-117 | queries exactly "org:google " + query; the store becomes StoreAfterSearch of the old store and the events are SearchEvents of the call |
| Repository.RepoRepositoryImpl.GetRepoById | app/src/main/java/com/ms/codeatlas/core/data/repository/RepoRepositoryImpl.kt:125-132 | the lookup reads the current store as RepoById |
| Repository.RepoRepositoryImpl.GetCachedRepos | app/src/main/java/com/ms/codeatlas/core/data/repository/RepoRepositoryImpl.kt:139-151 | a cache view: newest first, distinct ids, each the store's join for its id, every resolvable repo included, at most the repo count, all of them when every owner is present |
| RepositoryProperties.LaterPagesIgnoreCache | app/src/main/java/com/ms/codeatlas/core/data/repository/RepoRepositoryImpl.kt:42-50 | beyond page 1 the events do not depend on the cache and the network event follows Loading(true) directly |
| RepositoryProperties.FirstPageCacheThenNetwork | app/src/main/java/com/ms/codeatlas/core/data/repository/RepoRepositoryImpl.kt:38-81 | page 1, non-empty cache, success: exactly Loading(true), Success(cache), Success(remote), Loading(false) |
| RepositoryProperties.MissingBodyIsEmptyList | app/src/main/java/com/ms/codeatlas/core/data/repository/RepoRepositoryImpl.kt:55 | a 2xx response without a body is an empty list |
| RepositoryProperties.FirstPageTransportFailureFallsBack | app/src/main/java/com/ms/codeatlas/core/data/repository/RepoRepositoryImpl.kt:71-76 | page 1, non-empty cache, IOException: the cache, the network error, the cache again |
| RepositoryProperties.HttpFailureHasNoFallback | app/src/main/java/com/ms/codeatlas/core/data/repository/RepoRepositoryImpl.kt:68-78 | a non-2xx status or HttpException yields one Error with its message and no cache fallback |
| RepositoryProperties.HttpErrorNamesStatus | app/src/main/java/com/ms/codeatlas/core/data/repository/RepoRepositoryImpl.kt:69 | the status code can be read back from the HTTP error message |
| RepositoryProperties.FailureLeavesStore | app/src/main/java/com/ms/codeatlas/core/data/repository/RepoRepositoryImpl.kt:52-78 | a failed list or search call leaves the store unchanged |
| RepositoryProperties.FirstPageReplacesStore | app/src/main/java/com/ms/codeatlas/core/data/repository/RepoRepositoryImpl.kt:57-64 | a successful page 1 replaces the whole store: the result does not depend on the old store and holds exactly the fetched keys |
| RepositoryProperties.FirstPageRefreshIdempotent | app/src/main/java/com/ms/codeatlas/core/data/repository/RepoRepositoryImpl.kt:57-64 | page 1 twice with the same response leaves the same store as once |
| RepositoryProperties.BatchOnlyAdds | app/src/main/java/com/ms/codeatlas/core/data/repository/RepoRepositoryImpl.kt:63-64 | inserting a batch removes no row and keeps rows the batch does not carry |
| RepositoryProperties.LaterPageOnlyAdds | app/src/main/java/com/ms/codeatlas/core/data/repository/RepoRepositoryImpl.kt:57-64 | beyond page 1 nothing is cleared |
| RepositoryProperties.BatchRowOwnerStored | app/src/main/java/com/ms/codeatlas/core/data/repository/RepoRepositoryImpl.kt:63-64 | a repo the batch carries is stored with its owner row beside it |
| RepositoryProperties.BatchKeepsRepoResolving | app/src/main/java/com/ms/codeatlas/core/data/repository/RepoRepositoryImpl.kt:99-102 | a repo that resolved before a batch insert still resolves after it |
| RepositoryProperties.SearchOnlyAdds | app/src/main/java/com/ms/codeatlas/core/data/repository/RepoRepositoryImpl.kt:97-102 | a search never removes a row, and every repo that resolved still resolves |
| RepositoryProperties.BatchKeepsOwnersResolvable | app/src/main/java/com/ms/codeatlas/core/data/repository/RepoRepositoryImpl.kt:63-64 | owners are inserted before repos, so every stored repo keeps an owner row |
| RepositoryProperties.ListKeepsOwnersResolvable | app/src/main/java/com/ms/codeatlas/core/data/repository/RepoRepositoryImpl.kt:52-78 | every getRepos run keeps every stored repo's owner row present |
| RepositoryProperties.SearchKeepsOwnersResolvable | app/src/main/java/com/ms/codeatlas/core/data/repository/RepoRepositoryImpl.kt:94-113 | every search keeps every stored repo's owner row present |
| RepositoryProperties.FetchedRepoReadsBack | app/src/main/java/com/ms/codeatlas/core/data/repository/RepoRepositoryImpl.kt:63-66 | a fetched repo reads back from the store as the domain repo emitted for it, when no later entry of the batch has its id and the batch agrees on its owner's fields |
| RepositoryProperties.ListedRepoReadsBack | app/src/main/java/com/ms/codeatlas/core/data/repository/RepoRepositoryImpl.kt:52-67 | after a successful getRepos, each fetched repo reads back as the element the Success event carried, under the same two conditions |
| RepositoryProperties.OwnerDeletionHidesRepo | app/src/main/java/com/ms/codeatlas/core/data/repository/RepoRepositoryImpl.kt:125-132 | a repo inserted with its owner resolves, and stops resolving once owners are cleared |
| ListScreen.Handle | app/src/main/java/com/ms/codeatlas/presentation/list/RepoListViewModel.kt:66-85 | an event never changes the rendered state; only a query change sets the query; every launched load is the google list at the page the screen now points to; without a launch the paging is unchanged |
| ListScreen.Apply | app/src/main/java/com/ms/codeatlas/presentation/list/RepoListViewModel.kt:114-147 | a collected result never moves the page or the query; Loading and Error keep the list and canLoadMore; loading is shown exactly after Loading(true) and an error exactly after an Error |
| ListScreen.Run | app/src/main/java/com/ms/codeatlas/presentation/list/RepoListViewModel.kt:114-147 | results without a Success leave the list and canLoadMore as they were |
| ListScreen.Dispatch | app/src/main/java/com/ms/codeatlas/presentation/list/RepoListViewModel.kt:88-99 | a non-empty query launches a search of page 1, an empty one the google list at the current page |
| ListScreen.RepoListViewModel.constructor | app/src/main/java/com/ms/codeatlas/presentation/list/RepoListViewModel.kt:39-54 | empty list, not loading, no error, page 1, more allowed, empty query |
| ListScreen.RepoListViewModel.OnEvent | app/src/main/java/com/ms/codeatlas/presentation/list/RepoListViewModel.kt:66-85 | the screen and the launched load are those Handle gives for the event |
| ListScreen.RepoListViewModel.LoadRepos | app/src/main/java/com/ms/codeatlas/presentation/list/RepoListViewModel.kt:106-113 | a refresh resets to page 1 with more allowed; the load is the google list at the current page |
| ListScreen.RepoListViewModel.ObserveSearchQuery | app/src/main/java/com/ms/codeatlas/presentation/list/RepoListViewModel.kt:88-99 | the observer's load is a search exactly when the query is non-empty |
| ListScreen.RepoListViewModel.OnListResult | app/src/main/java/com/ms/codeatlas/presentation/list/RepoListViewModel.kt:114-147 | the screen after one list result is Apply of it |
| ListScreen.RepoListViewModel.OnSearchResult | app/src/main/java/com/ms/codeatlas/presentation/list/RepoListViewModel.kt:160-187 | the screen after one search result is Apply of it |
| ListScreen.RepoListViewModel.CollectListResults | app/src/main/java/com/ms/codeatlas/presentation/list/RepoListViewModel.kt:112-148 | collecting a list load's results gives Run over them |
| ListScreen.RepoListViewModel.CollectSearchResults | app/src/main/java/com/ms/codeatlas/presentation/list/RepoListViewModel.kt:158-188 | collecting a search's results gives Run over them |
| ListScreenProperties.NextPageGuarded | app/src/main/java/com/ms/codeatlas/presentation/list/RepoListViewModel.kt:71-76 | LoadNextPage advances the page by exactly one and launches it iff more can be loaded and nothing is loading; otherwise nothing changes |
| ListScreenProperties.RefreshRestartsPaging | app/src/main/java/com/ms/codeatlas/presentation/list/RepoListViewModel.kt:77-80 | a refresh sets page 1 with more allowed and launches page 1 of the list |
| ListScreenProperties.QueryChangeOnlySetsQuery | app/src/main/java/com/ms/codeatlas/presentation/list/RepoListViewModel.kt:68-70 | a query change sets only the query; the observer then searches iff it is non-empty |
| ListScreenProperties.RetryRepeatsCurrentPage | app/src/main/java/com/ms/codeatlas/presentation/list/RepoListViewModel.kt:81-83 | a retry relaunches the current page and changes nothing |
| ListScreenProperties.CreationLoadsFirstPageTwice | app/src/main/java/com/ms/codeatlas/presentation/list/RepoListViewModel.kt:56-59 | on creation the observer's first load is page 1 of the list, as is the direct load |
| ListScreenProperties.LoadingOnlyTogglesFlag | app/src/main/java/com/ms/codeatlas/presentation/list/RepoListViewModel.kt:116-123 | Loading(b) sets the flag, clears the error and keeps the list and paging |
| ListScreenProperties.ListPagePlacement | app/src/main/java/com/ms/codeatlas/presentation/list/RepoListViewModel.kt:124-137 | a page replaces the list on page 1 and is appended after it later; more can be loaded iff the page was non-empty |
| ListScreenProperties.SearchResultsReplace | app/src/main/java/com/ms/codeatlas/presentation/list/RepoListViewModel.kt:170-178 | search results replace the list and leave paging unchanged |
| ListScreenProperties.ErrorKeepsList | app/src/main/java/com/ms/codeatlas/presentation/list/RepoListViewModel.kt:139-146 | an error shows its message, stops loading and keeps the list and paging |
| ListScreenProperties.RunConcat | app/src/main/java/com/ms/codeatlas/presentation/list/RepoListViewModel.kt:114 | collecting results in two parts equals collecting them all |
| ListScreenProperties.RunKeepsPosition | app/src/main/java/com/ms/codeatlas/presentation/list/RepoListViewModel.kt:114-147 | results never change the page or the query; search results never change canLoadMore |
| ListScreenProperties.RunEndingIdle | app/src/main/java/com/ms/codeatlas/presentation/list/RepoListViewModel.kt:116-123 | results ending in Loading(false) leave the screen idle with no error |
| ListScreenProperties.FlowsEndIdleWithoutError | app/src/main/java/com/ms/codeatlas/presentation/list/RepoListViewModel.kt:112-189 | after any complete list load or search the screen is idle and shows no error |
| ListScreenProperties.ListRunSplit | app/src/main/java/com/ms/codeatlas/presentation/list/RepoListViewModel.kt:112-148 | a list load's run is Loading(true), the cache and network events, then Loading(false) |
| ListScreenProperties.FirstPageShowsFetched | app/src/main/java/com/ms/codeatlas/presentation/list/RepoListViewModel.kt:124-137 | a successful page 1 shows exactly the fetched list, whatever the cache held |
| ListScreenProperties.LaterPageAppends | app/src/main/java/com/ms/codeatlas/presentation/list/RepoListViewModel.kt:124-137 | a successful later page is appended after what was shown |
| ListScreenProperties.FailedLoadKeepsList | app/src/main/java/com/ms/codeatlas/presentation/list/RepoListViewModel.kt:139-146 | a failed load with no cache shown keeps the list and paging |
| ListScreenProperties.FailedFirstPageShowsCache | app/src/main/java/com/ms/codeatlas/presentation/list/RepoListViewModel.kt:124-146 | a failed page 1 with a non-empty cache shows the cache and keeps paging open |
| ListScreenProperties.SearchFlowOutcome | app/src/main/java/com/ms/codeatlas/presentation/list/RepoListViewModel.kt:158-189 | a successful search shows its mapped results, a failed one keeps the list; paging untouched |
| DetailsScreen.DetailsFor | app/src/main/java/com/ms/codeatlas/presentation/details/RepoDetailsViewModel.kt:50-56 | an emission is shown as the repo with no error, or no repo with "Repository not found" |
| DetailsScreen.RepoDetailsViewModel.constructor | app/src/main/java/com/ms/codeatlas/presentation/details/RepoDetailsViewModel.kt:30-36 | no repo and no error at first |
| DetailsScreen.RepoDetailsViewModel.OnEmission | app/src/main/java/com/ms/codeatlas/presentation/details/RepoDetailsViewModel.kt:51-55 | each emission replaces the whole state by DetailsFor |
| DetailsScreen.RepoDetailsViewModel.Collect | app/src/main/java/com/ms/codeatlas/presentation/details/RepoDetailsViewModel.kt:48-58 | the last emission alone decides the state; no stale repo or error survives |
| DetailsScreen.DetailsErrorIffMissing | app/src/main/java/com/ms/codeatlas/presentation/details/RepoDetailsViewModel.kt:50-56 | over the store, the screen shows an error exactly when the repo or its owner row is missing, else the repo asked for |
| DetailsScreen.ClearedOwnersHideDetails | app/src/main/java/com/ms/codeatlas/presentation/details/RepoDetailsViewModel.kt:50-56 | after the owners table is cleared every repo's details show "Repository not found" |

## Left out

- Kotlin flows and coroutines: `viewModelScope.launch`, `debounce(500)`, `stateIn`/`WhileSubscribed`, and the conflation of equal values by `StateFlow`. Each flow is the finite list of events one run emits; the query observer fires once on the settled query.
- Overlapping launches racing on the store or on the screen state; runs are sequential.
- Room's live re-emission: `getRepoById` and `getRepos` are single reads of the current store; the details view model collects a given list of emissions.
- Retrofit and Moshi: HTTP and JSON decoding are an abstract call outcome; exception messages are opaque optional strings.
- SQLite beyond the DAO contract: whether inserts enforce the foreign key, and the row deletion inside REPLACE. The model's REPLACE overwrites a row by id. SQLite's REPLACE deletes the conflicting row and then inserts the new one, and with foreign keys enforced (which the model's cascade-on-clear assumes) that deletion of an owner row cascades to the owner's repos. Every repo the app fetches belongs to the google organisation and `insertOwners` runs before `insertRepos` (RepoRepositoryImpl.kt:63-64 and 100-101), so in the app a page 2+ load or a successful search that returns at least one repo drops every cached repo the batch does not carry again, and its details then read "Repository not found". The statements listed next hold for replace-by-id only.
- Dao.WithOwners: "all repos unchanged" holds for replace-by-id only; under SQLite's REPLACE the repos of each replaced owner are deleted.
- Dao.RepoDao.InsertOwners: "all repos unchanged" holds for replace-by-id only, as for Dao.WithOwners.
- RepositoryProperties.BatchOnlyAdds: holds for replace-by-id only; under SQLite's REPLACE a batch drops the repos of its owners that it does not carry.
- RepositoryProperties.LaterPageOnlyAdds: holds for replace-by-id only; in the app a non-empty page 2+ load drops the cached repos the page does not carry.
- RepositoryProperties.BatchKeepsRepoResolving: holds for replace-by-id only; under SQLite's REPLACE a cached repo of a re-inserted owner stops resolving.
- RepositoryProperties.SearchOnlyAdds: holds for replace-by-id only; in the app a successful non-empty search drops the cached repos it does not carry.
- DetailsScreen.RepoDetailsViewModel.constructor: takes the repo id as a plain integer; the `checkNotNull` failure for a missing "repoId" navigation argument (RepoDetailsViewModel.kt:36) is not modelled.
- Exceptions thrown by the store itself.
- Repository.ListEvents: an exception from the API call other than IOException or HttpException (a Moshi `JsonDataException` for a body of the wrong shape, say) is not an outcome of the modelled call; the source does not catch it (RepoRepositoryImpl.kt:71-78), emits `Loading(false)` from its `finally` block and then rethrows it to the collector.
- Repository.SearchEvents: likewise, such an exception escapes `searchRepos` (RepoRepositoryImpl.kt:110-115) after `Loading(false)`; the statement that every load ends idle without an error covers the three modelled outcomes only.
- `Utils.formatDate`: locale- and timezone-dependent date formatting at the presentation boundary.
- The use cases `GetReposUseCase` and `SearchReposUseCase`, which only forward to the repository.
- Compose screens, navigation, dependency injection and build configuration.
- Integer widths: ids (Long), star counts (Int) and the list screen's page counter `currentPage` (Int) are unbounded integers. Nothing in the core does arithmetic on ids or star counts; `LoadNextPage` increments `currentPage` (RepoListViewModel.kt:73), and the model's `m.currentPage + 1` in `ListScreen.Handle` does not wrap at 2^31 - 1 as Kotlin's Int would, a page no load can reach in practice.
- Dao.RepoDao.GetRepos: the order among repos with equal createdAt is left open, as SQL leaves it.
- Repository.RepoRepositoryImpl.GetRepos: on page 1 the events are stated for the cache view the run read, which is one of the possible views of the old store, not one fixed listing, because the listing's order among equal createdAt values is open.
