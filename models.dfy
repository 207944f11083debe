/**
 * The records exchanged by the repository layer: what the GitHub API returns,
 * what the local store keeps, and what the domain and the screens see.
 * Ids are the upstream 64-bit ids; they are never computed with, so they are
 * modelled as unbounded integers.
 */
module Models {
  import opened Wrappers

  /** The owner object of a repository as the API returns it. */
  datatype RemoteOwner = RemoteOwner(id: int, login: string, avatarUrl: string)

  /** A repository object as the API returns it. */
  datatype RemoteRepo = RemoteRepo(
    id: int,
    name: string,
    fullName: string,
    owner: RemoteOwner,
    htmlUrl: string,
    description: Option<string>,
    createdAt: string,
    stargazersCount: int)

  /** The body of the search endpoint. */
  datatype SearchResponse = SearchResponse(items: seq<RemoteRepo>, totalCount: int)

  /** A row of the `owners` table. */
  datatype LocalOwner = LocalOwner(id: int, login: string, avatarUrl: string)

  /** A row of the `repos` table; `ownerId` references `owners.id`. */
  datatype LocalRepo = LocalRepo(
    id: int,
    name: string,
    fullName: string,
    ownerId: int,
    htmlUrl: string,
    description: Option<string>,
    createdAt: string,
    stargazersCount: int)

  /** Domain owner. */
  datatype Owner = Owner(id: int, login: string, avatarUrl: string)

  /** Domain repository: the owner is embedded rather than referenced. */
  datatype Repo = Repo(
    id: int,
    name: string,
    fullName: string,
    owner: Owner,
    htmlUrl: string,
    description: Option<string>,
    createdAt: string,
    stargazersCount: int)

  /** One event of a result stream. */
  datatype NetworkResult<+T> = Success(data: T) | Error(message: string) | Loading(isLoading: bool)
}
