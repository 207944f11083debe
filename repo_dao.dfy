/**
 * The local store: a `repos` table and an `owners` table keyed by the upstream
 * id, where `repos.ownerId` references `owners.id` with ON DELETE CASCADE.
 * `Store` is the value of both tables; `RepoDao` is the mutable store whose
 * methods are specified by the pure transitions on `Store`.
 */
module Dao {
  import opened Wrappers
  import opened Models
  import opened Text
  import opened Tables

  /** The content of both tables. */
  datatype Store = Store(repos: map<int, LocalRepo>, owners: map<int, LocalOwner>)

  /** Primary key of `repos`. */
  function RepoKey(r: LocalRepo): int {
    r.id
  }

  /** Primary key of `owners`. */
  function OwnerKey(o: LocalOwner): int {
    o.id
  }

  /** Every row is filed under its own primary key. */
  ghost predicate WellKeyed(s: Store) {
    Keyed(s.repos, RepoKey) && Keyed(s.owners, OwnerKey)
  }

  /** `insertRepos(rows)` with REPLACE on conflict. */
  function WithRepos(s: Store, rows: seq<LocalRepo>): (t: Store)
    ensures t.owners == s.owners
    ensures t.repos.Keys == s.repos.Keys + KeysOf(rows, RepoKey)
    ensures forall k :: k in s.repos && k !in KeysOf(rows, RepoKey) ==> t.repos[k] == s.repos[k]
    ensures forall i :: 0 <= i < |rows| && LastWithKey(rows, RepoKey, i) ==> t.repos[rows[i].id] == rows[i]
    ensures WellKeyed(s) ==> WellKeyed(t)
  {
    UpsertFacts(s.repos, rows, RepoKey);
    s.(repos := Upsert(s.repos, rows, RepoKey))
  }

  /** `insertOwners(rows)` with REPLACE on conflict. */
  function WithOwners(s: Store, rows: seq<LocalOwner>): (t: Store)
    ensures t.repos == s.repos
    ensures t.owners.Keys == s.owners.Keys + KeysOf(rows, OwnerKey)
    ensures forall k :: k in s.owners && k !in KeysOf(rows, OwnerKey) ==> t.owners[k] == s.owners[k]
    ensures forall i :: 0 <= i < |rows| && LastWithKey(rows, OwnerKey, i) ==> t.owners[rows[i].id] == rows[i]
    ensures WellKeyed(s) ==> WellKeyed(t)
  {
    UpsertFacts(s.owners, rows, OwnerKey);
    s.(owners := Upsert(s.owners, rows, OwnerKey))
  }

  /** `DELETE FROM repos`. */
  function ReposCleared(s: Store): (t: Store)
    ensures t.repos == map[] && t.owners == s.owners
    ensures WellKeyed(s) ==> WellKeyed(t)
  {
    s.(repos := map[])
  }

  /** `DELETE FROM owners`; the cascade deletes every repo that referenced a deleted owner. */
  function OwnersCleared(s: Store): (t: Store)
    ensures t.owners == map[]
    ensures forall k :: k in t.repos ==> k in s.repos && t.repos[k] == s.repos[k]
    ensures forall k :: k in s.repos ==> (k in t.repos <==> s.repos[k].ownerId !in s.owners)
    ensures WellKeyed(s) ==> WellKeyed(t)
  {
    Store(map k | k in s.repos && s.repos[k].ownerId !in s.owners :: s.repos[k], map[])
  }

  /** `ORDER BY createdAt DESC`: no row was created after a row listed before it. */
  predicate SortedByCreatedDesc(listing: seq<LocalRepo>) {
    forall i, j :: 0 <= i < j < |listing| ==> StrLeq(listing[j].createdAt, listing[i].createdAt)
  }

  /**
   * A possible answer of `SELECT * FROM repos ORDER BY createdAt DESC`: every
   * stored row exactly once, newest first. Rows with equal `createdAt` may
   * come in any order.
   */
  ghost predicate IsListing(listing: seq<LocalRepo>, repos: map<int, LocalRepo>) {
    multiset(listing) == multiset(repos.Values) && SortedByCreatedDesc(listing)
  }

  /** A listing of a well-keyed table has one entry per key, each the row stored under its id. */
  lemma ListingCoversTable(listing: seq<LocalRepo>, repos: map<int, LocalRepo>)
    requires Keyed(repos, RepoKey) && IsListing(listing, repos)
    ensures |listing| == |repos|
    ensures forall i :: 0 <= i < |listing| ==> listing[i].id in repos && repos[listing[i].id] == listing[i]
  {
    KeyedValuesCount(repos, RepoKey);
    assert |multiset(listing)| == |multiset(repos.Values)|;
    forall i | 0 <= i < |listing| ensures listing[i].id in repos && repos[listing[i].id] == listing[i] {
      assert listing[i] in multiset(listing);
      var k := KeyOf(repos, listing[i]);
    }
  }

  /** Puts `r` into a listing sorted newest first, before every row not newer than it. */
  function InsertByCreatedDesc(s: seq<LocalRepo>, r: LocalRepo): (t: seq<LocalRepo>)
    requires SortedByCreatedDesc(s)
    ensures multiset(t) == multiset(s) + multiset{r}
    ensures forall x :: x in t ==> x == r || x in s
    ensures SortedByCreatedDesc(t)
    decreases |s|
  {
    if s == [] || StrLeq(s[0].createdAt, r.createdAt) then
      forall j | 0 <= j < |s| ensures StrLeq(s[j].createdAt, r.createdAt) {
        if j > 0 {
          StrLeqTransitive(s[j].createdAt, s[0].createdAt, r.createdAt);
        }
      }
      ConsKeepsSorted(r, s);
      [r] + s
    else
      var rest := InsertByCreatedDesc(s[1..], r);
      StrLeqTotal(s[0].createdAt, r.createdAt);
      assert s == [s[0]] + s[1..];
      forall j | 0 <= j < |rest| ensures StrLeq(rest[j].createdAt, s[0].createdAt) {
        assert rest[j] in rest;
        if rest[j] != r {
          var k :| 1 <= k < |s| && s[k] == rest[j];
        }
      }
      ConsKeepsSorted(s[0], rest);
      [s[0]] + rest
  }

  /** A row no older than every row of a sorted listing can go in front of it. */
  lemma ConsKeepsSorted(x: LocalRepo, rest: seq<LocalRepo>)
    requires SortedByCreatedDesc(rest)
    requires forall j :: 0 <= j < |rest| ==> StrLeq(rest[j].createdAt, x.createdAt)
    ensures SortedByCreatedDesc([x] + rest)
  {
    var t := [x] + rest;
    forall i, j | 0 <= i < j < |t| ensures StrLeq(t[j].createdAt, t[i].createdAt) {
      assert t[j] == rest[j - 1];
      if i > 0 {
        assert t[i] == rest[i - 1];
      }
    }
  }

  /** A sequence with the multiset of a set holds no element twice. */
  lemma MultisetOfSetHasNoRepeats<T>(s: seq<T>, values: set<T>, i: int, j: int)
    requires multiset(s) == multiset(values)
    requires 0 <= i < j < |s|
    ensures s[i] != s[j]
  {
    var v := s[i];
    assert s == s[..j] + s[j..];
    assert v in multiset(s[..j]) by { assert s[..j][i] == v; }
    assert multiset(s)[v] == multiset(s[..j])[v] + multiset(s[j..])[v];
    assert multiset(values)[v] <= 1;
    assert v !in multiset(s[j..]);
    assert s[j..][0] == s[j];
  }

  /** The local store (the DAO over the Room database). */
  class RepoDao {
    var repos: map<int, LocalRepo>
    var owners: map<int, LocalOwner>

    /** Primary-key integrity of both tables. */
    ghost predicate Valid()
      reads this
    {
      WellKeyed(Snapshot())
    }

    /** The content of both tables. */
    function Snapshot(): Store
      reads this
    {
      Store(repos, owners)
    }

    /** An empty database. */
    constructor()
      ensures Valid() && repos == map[] && owners == map[]
    {
      repos, owners := map[], map[];
    }

    /** Each row replaces whatever was stored under its id; later rows of the batch win. */
    method InsertRepos(rows: seq<LocalRepo>)
      requires Valid()
      modifies this
      ensures Valid() && Snapshot() == WithRepos(old(Snapshot()), rows)
      ensures repos.Keys == old(repos).Keys + KeysOf(rows, RepoKey)
      ensures forall i :: 0 <= i < |rows| && LastWithKey(rows, RepoKey, i) ==> repos[rows[i].id] == rows[i]
      ensures forall k :: k in old(repos) && k !in KeysOf(rows, RepoKey) ==> repos[k] == old(repos)[k]
      ensures owners == old(owners)
    {
      repos := Upsert(repos, rows, RepoKey);
      assert Snapshot() == WithRepos(old(Snapshot()), rows);
    }

    /** Each row replaces whatever was stored under its id; later rows of the batch win. */
    method InsertOwners(rows: seq<LocalOwner>)
      requires Valid()
      modifies this
      ensures Valid() && Snapshot() == WithOwners(old(Snapshot()), rows)
      ensures owners.Keys == old(owners).Keys + KeysOf(rows, OwnerKey)
      ensures forall i :: 0 <= i < |rows| && LastWithKey(rows, OwnerKey, i) ==> owners[rows[i].id] == rows[i]
      ensures forall k :: k in old(owners) && k !in KeysOf(rows, OwnerKey) ==> owners[k] == old(owners)[k]
      ensures repos == old(repos)
    {
      owners := Upsert(owners, rows, OwnerKey);
      assert Snapshot() == WithOwners(old(Snapshot()), rows);
    }

    /** Every stored repo, exactly once, newest `createdAt` first. */
    method GetRepos() returns (listing: seq<LocalRepo>)
      requires Valid()
      ensures IsListing(listing, repos)
      ensures |listing| == |repos|
      ensures forall k :: k in repos ==> repos[k] in listing
      ensures forall i :: 0 <= i < |listing| ==> listing[i].id in repos && repos[listing[i].id] == listing[i]
      ensures forall i, j :: 0 <= i < j < |listing| ==> listing[i].id != listing[j].id
    {
      listing := [];
      var rest := repos.Values;
      while rest != {}
        invariant rest <= repos.Values
        invariant multiset(listing) + multiset(rest) == multiset(repos.Values)
        invariant SortedByCreatedDesc(listing)
        invariant |listing| + |rest| == |repos.Values|
        decreases |rest|
      {
        ghost var w := MemberOf(rest);
        var v :| v in rest;
        listing := InsertByCreatedDesc(listing, v);
        rest := rest - {v};
      }
      KeyedValuesCount(repos, RepoKey);
      forall k | k in repos ensures repos[k] in listing {
        assert repos[k] in multiset(repos.Values);
      }
      forall i | 0 <= i < |listing| ensures listing[i].id in repos && repos[listing[i].id] == listing[i] {
        assert listing[i] in multiset(listing);
        var v := listing[i];
        assert v in multiset(repos.Values);
        assert v in repos.Values;
        var k := KeyOf(repos, v);
      }
      forall i, j | 0 <= i < j < |listing| ensures listing[i].id != listing[j].id {
        MultisetOfSetHasNoRepeats(listing, repos.Values, i, j);
      }
    }

    /** `SELECT * FROM repos WHERE id = :repoId LIMIT 1`. */
    function GetRepoById(repoId: int): (r: Option<LocalRepo>)
      reads this
      ensures r.Some? <==> repoId in repos
      ensures r.Some? ==> r.value == repos[repoId]
    {
      if repoId in repos then Some(repos[repoId]) else None
    }

    /** `SELECT * FROM owners WHERE id = :ownerId`. */
    function GetOwner(ownerId: int): (r: Option<LocalOwner>)
      reads this
      ensures r.Some? <==> ownerId in owners
      ensures r.Some? ==> r.value == owners[ownerId]
    {
      if ownerId in owners then Some(owners[ownerId]) else None
    }

    /** `DELETE FROM repos`: owners are untouched. */
    method ClearRepos()
      requires Valid()
      modifies this
      ensures Valid() && Snapshot() == ReposCleared(old(Snapshot()))
      ensures repos == map[] && owners == old(owners)
    {
      repos := map[];
    }

    /** `DELETE FROM owners`, cascading to the repos that referenced a deleted owner. */
    method ClearOwners()
      requires Valid()
      modifies this
      ensures Valid() && Snapshot() == OwnersCleared(old(Snapshot()))
      ensures owners == map[]
      ensures forall k :: k in repos <==> k in old(repos) && old(repos)[k].ownerId !in old(owners)
      ensures forall k :: k in repos ==> repos[k] == old(repos)[k]
    {
      repos := map k | k in repos && repos[k].ownerId !in owners :: repos[k];
      owners := map[];
    }
  }
}
