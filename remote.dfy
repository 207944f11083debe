/**
 * The remote GitHub client, reduced to what the repository layer observes of
 * one call: an HTTP response (status code and an optional decoded body), or
 * one of the two exceptions the repository layer catches.
 */
module Remote {
  import opened Wrappers
  import opened Models

  /** The outcome of one suspended API call. */
  datatype Call<T> =
    | Responded(code: int, body: Option<T>)      // a response arrived; body() may be null
    | IoFailure(message: Option<string>)          // java.io.IOException (no connection, timeout)
    | HttpFailure(message: Option<string>)        // retrofit2.HttpException

  /** Retrofit's `Response.isSuccessful`: a status code in [200, 300). */
  predicate IsSuccessful(code: int): (b: bool)
    ensures b <==> code / 100 == 2
  {
    200 <= code < 300
  }

  /**
   * The two endpoints, as total functions from the request to its outcome:
   * `getOrganizationRepos(org, page)` and `searchRepos(q, page)`, both with the
   * default page size of 30.
   */
  datatype GithubApi = GithubApi(
    getOrganizationRepos: (string, int) -> Call<seq<RemoteRepo>>,
    searchRepos: (string, int) -> Call<SearchResponse>)
}
