/**
 * Field-copying conversions between the remote, local and domain records.
 * Each is a single record construction; the lemmas below state what the
 * conversions preserve and that the two paths to a domain record agree.
 */
module Mappers {
  import opened Models

  /** `RemoteRepo.toLocal()`: the owner is replaced by its id. */
  function RepoToLocal(r: RemoteRepo): (l: LocalRepo)
    ensures l.id == r.id && l.ownerId == r.owner.id
    ensures l.name == r.name && l.fullName == r.fullName && l.htmlUrl == r.htmlUrl
    ensures l.description == r.description && l.createdAt == r.createdAt && l.stargazersCount == r.stargazersCount
  {
    LocalRepo(r.id, r.name, r.fullName, r.owner.id, r.htmlUrl, r.description, r.createdAt, r.stargazersCount)
  }

  /** `RemoteOwner.toLocal()`. */
  function OwnerToLocal(o: RemoteOwner): (l: LocalOwner)
    ensures l.id == o.id && l.login == o.login && l.avatarUrl == o.avatarUrl
  {
    LocalOwner(o.id, o.login, o.avatarUrl)
  }

  /** `LocalRepo.toRepo(owner)`: the owner comes from the argument, not from `ownerId`. */
  function LocalToRepo(lr: LocalRepo, owner: LocalOwner): (d: Repo)
    ensures d.owner == LocalToOwner(owner)
    ensures d.id == lr.id && d.name == lr.name && d.fullName == lr.fullName && d.htmlUrl == lr.htmlUrl
    ensures d.description == lr.description && d.createdAt == lr.createdAt && d.stargazersCount == lr.stargazersCount
  {
    Repo(lr.id, lr.name, lr.fullName, LocalToOwner(owner), lr.htmlUrl, lr.description, lr.createdAt, lr.stargazersCount)
  }

  /** `LocalOwner.toOwner()`. */
  function LocalToOwner(o: LocalOwner): (d: Owner)
    ensures d.id == o.id && d.login == o.login && d.avatarUrl == o.avatarUrl
  {
    Owner(o.id, o.login, o.avatarUrl)
  }

  /** `RemoteRepo.toRepo()`. */
  function RemoteToRepo(r: RemoteRepo): (d: Repo)
    ensures d.owner == RemoteToOwner(r.owner)
    ensures d.id == r.id && d.name == r.name && d.fullName == r.fullName && d.htmlUrl == r.htmlUrl
    ensures d.description == r.description && d.createdAt == r.createdAt && d.stargazersCount == r.stargazersCount
  {
    Repo(r.id, r.name, r.fullName, RemoteToOwner(r.owner), r.htmlUrl, r.description, r.createdAt, r.stargazersCount)
  }

  /** `RemoteOwner.toOwner()`. */
  function RemoteToOwner(o: RemoteOwner): (d: Owner)
    ensures d.id == o.id && d.login == o.login && d.avatarUrl == o.avatarUrl
  {
    Owner(o.id, o.login, o.avatarUrl)
  }

  /** `remoteRepos.map { it.toLocal() }`, order kept. */
  function ReposToLocal(rs: seq<RemoteRepo>): (ls: seq<LocalRepo>)
    ensures |ls| == |rs|
    ensures forall i :: 0 <= i < |rs| ==> ls[i] == RepoToLocal(rs[i])
  {
    seq(|rs|, i requires 0 <= i < |rs| => RepoToLocal(rs[i]))
  }

  /** `remoteRepos.map { it.owner.toLocal() }`, one entry per repository, order kept. */
  function OwnersToLocal(rs: seq<RemoteRepo>): (os: seq<LocalOwner>)
    ensures |os| == |rs|
    ensures forall i :: 0 <= i < |rs| ==> os[i] == OwnerToLocal(rs[i].owner)
  {
    seq(|rs|, i requires 0 <= i < |rs| => OwnerToLocal(rs[i].owner))
  }

  /** `remoteRepos.map { it.toRepo() }`, order kept. */
  function ReposToDomain(rs: seq<RemoteRepo>): (ds: seq<Repo>)
    ensures |ds| == |rs|
    ensures forall i :: 0 <= i < |rs| ==> ds[i] == RemoteToRepo(rs[i])
  {
    seq(|rs|, i requires 0 <= i < |rs| => RemoteToRepo(rs[i]))
  }

  /** Remote -> local -> domain is the same as remote -> domain. */
  lemma RepoRoundTrip(r: RemoteRepo)
    ensures LocalToRepo(RepoToLocal(r), OwnerToLocal(r.owner)) == RemoteToRepo(r)
  {
  }

  /** Remote -> local -> domain owner is the same as remote -> domain owner. */
  lemma OwnerRoundTrip(o: RemoteOwner)
    ensures LocalToOwner(OwnerToLocal(o)) == RemoteToOwner(o)
  {
  }

  /** Going through the store loses no field: the local pair determines the remote record. */
  lemma LocalPairDeterminesRemote(r1: RemoteRepo, r2: RemoteRepo)
    requires RepoToLocal(r1) == RepoToLocal(r2) && OwnerToLocal(r1.owner) == OwnerToLocal(r2.owner)
    ensures r1 == r2
  {
  }

  /** `toRepo(owner)` never looks at `ownerId`; a matching owner keeps the id link. */
  lemma LocalToRepoUsesOwnerArgument(lr: LocalRepo, owner: LocalOwner, otherOwnerId: int)
    ensures LocalToRepo(lr.(ownerId := otherOwnerId), owner) == LocalToRepo(lr, owner)
    ensures LocalToRepo(lr, owner).owner.id == owner.id
    ensures owner.id == lr.ownerId ==> LocalToRepo(lr, owner).owner.id == lr.ownerId
  {
  }

  /** The scalar fields of a local row reach the domain record unchanged. */
  lemma LocalToRepoKeepsFields(lr: LocalRepo, owner: LocalOwner)
    ensures var d := LocalToRepo(lr, owner);
      d.id == lr.id && d.name == lr.name && d.fullName == lr.fullName && d.htmlUrl == lr.htmlUrl
      && d.description == lr.description && d.createdAt == lr.createdAt && d.stargazersCount == lr.stargazersCount
      && d.owner == Owner(owner.id, owner.login, owner.avatarUrl)
  {
  }
}
