/**
 * The repository details screen's view model: each emission of the
 * repository lookup replaces the screen state.
 */
module DetailsScreen {
  import opened Wrappers
  import opened Models
  import opened Dao
  import opened Repository

  const NotFound := "Repository not found"

  /** What the details screen renders. */
  datatype RepoDetailsState = RepoDetailsState(repo: Option<Repo>, error: Option<string>)

  /** The state one emission of the lookup produces, whatever the state was before. */
  function DetailsFor(emission: Option<Repo>): (d: RepoDetailsState)
    ensures d.repo == emission
    ensures d.repo.Some? <==> d.error.None?
    ensures d.error.Some? ==> d.error.value == NotFound
  {
    if emission.Some? then RepoDetailsState(emission, None) else RepoDetailsState(None, Some(NotFound))
  }

  class RepoDetailsViewModel {
    const repoId: int
    var state: RepoDetailsState

    constructor(repoId: int)
      ensures this.repoId == repoId && state == RepoDetailsState(None, None)
    {
      this.repoId := repoId;
      state := RepoDetailsState(None, None);
    }

    /** One emission of `getRepoById(repoId)`. */
    method OnEmission(emission: Option<Repo>)
      modifies this
      ensures state == DetailsFor(emission)
    {
      if emission.Some? {
        state := RepoDetailsState(emission, None);
      } else {
        state := RepoDetailsState(None, Some(NotFound));
      }
    }

    /** Collects a run of emissions: the last one decides the state, and nothing of earlier ones survives. */
    method Collect(emissions: seq<Option<Repo>>)
      modifies this
      ensures emissions == [] ==> state == old(state)
      ensures emissions != [] ==> state == DetailsFor(emissions[|emissions| - 1])
    {
      for i := 0 to |emissions|
        invariant i == 0 ==> state == old(state)
        invariant i > 0 ==> state == DetailsFor(emissions[i - 1])
      {
        OnEmission(emissions[i]);
      }
    }
  }

  /**
   * Read against the store, the screen shows an error exactly when the repo or
   * its owner row is missing; otherwise it shows the repo asked for.
   */
  lemma DetailsErrorIffMissing(s: Store, repoId: int)
    ensures DetailsFor(RepoById(s, repoId)).error.Some?
      <==> repoId !in s.repos || s.repos[repoId].ownerId !in s.owners
    ensures WellKeyed(s) && DetailsFor(RepoById(s, repoId)).repo.Some? ==>
      DetailsFor(RepoById(s, repoId)).repo.value.id == repoId
  {
  }

  /** Once the owners table is cleared, no repo's details can be shown. */
  lemma ClearedOwnersHideDetails(s: Store, repoId: int)
    ensures DetailsFor(RepoById(OwnersCleared(s), repoId)) == RepoDetailsState(None, Some(NotFound))
  {
  }
}
