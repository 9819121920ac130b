/**
 * The media server's library as the services see it through ILibraryManager
 * and IUserManager: the users, the media items in scan order, and the
 * collections with the order in which the library enumerates them.
 */
module Library {
  import opened Wrappers
  import opened Entities
  import opened Sequences

  /** Some media item carries this id. */
  predicate IsMediaId(items: seq<MediaItem>, id: Guid) {
    exists it :: it in items && it.id == id
  }

  /** GetItemById finds an item: a collection or a media item. */
  predicate ItemExists(items: seq<MediaItem>, collections: map<Guid, BoxSet>, id: Guid) {
    id in collections || IsMediaId(items, id)
  }

  /** The item carries a TMDB id (HasTmdbId of a library query). */
  function HasTmdb(it: MediaItem): bool {
    "Tmdb" in it.providerIds
  }

  /** The user's play record marks the item played (IsPlayed of a library query). */
  function PlayedBy(user: Guid): MediaItem -> bool {
    (it: MediaItem) => HasTmdb(it) && user in it.userData && it.userData[user].played
  }

  /** The user's last play date as a sort key; an item never dated sorts last. */
  function LastPlayedKey(user: Guid): MediaItem -> real {
    (it: MediaItem) => if user in it.userData && it.userData[user].lastPlayedDate.Some?
          then it.userData[user].lastPlayedDate.value as real
          else -1.0
  }

  /**
   * GetRecentlyWatchedAsync: the user's played items with a TMDB id, most
   * recently played first, at most `limit` of them; none for an unknown user.
   * A played item is left out only when `limit` more recent (or as recent)
   * ones fill the answer.
   */
  function RecentlyWatched(users: seq<Guid>, items: seq<MediaItem>, user: Guid, limit: nat): (r: seq<MediaItem>)
    ensures |r| <= limit
    ensures user !in users ==> r == []
    ensures forall it :: it in r ==> it in items && HasTmdb(it) && user in it.userData && it.userData[user].played
    ensures SortedDesc(r, LastPlayedKey(user))
    ensures user in users ==> forall it :: it in items && PlayedBy(user)(it) && it !in r ==>
              |r| == limit && forall x :: x in r ==> LastPlayedKey(user)(x) >= LastPlayedKey(user)(it)
  {
    if user !in users then []
    else
      MostRecentlyPlayed(items, user, limit);
      Take(SortDesc(Filter(items, PlayedBy(user)), LastPlayedKey(user)), limit)
  }

  /** The facts behind RecentlyWatched for a known user. */
  lemma MostRecentlyPlayed(items: seq<MediaItem>, user: Guid, limit: nat)
    ensures var r := Take(SortDesc(Filter(items, PlayedBy(user)), LastPlayedKey(user)), limit);
            && (forall it :: it in r ==> it in items && PlayedBy(user)(it))
            && (forall it :: it in items && PlayedBy(user)(it) && it !in r ==>
                  |r| == limit && forall x :: x in r ==> LastPlayedKey(user)(x) >= LastPlayedKey(user)(it))
  {
    var candidates := Filter(items, PlayedBy(user));
    var played := SortDesc(candidates, LastPlayedKey(user));
    var r := Take(played, limit);
    SameMultisetSameElements(played, candidates);
    TakeOfSortedLeftOut(played, LastPlayedKey(user), limit);
    assert r + Skip(played, limit) == played;
    forall it | it in r
      ensures it in items && PlayedBy(user)(it)
    {
      assert it in played;
      assert it in candidates;
    }
    forall it | it in items && PlayedBy(user)(it) && it !in r
      ensures it in played
    {
      assert it in candidates;
    }
  }

  /** GetUserLibraryAsync: the media items with a TMDB id; none for an unknown user. */
  function UserLibrary(users: seq<Guid>, items: seq<MediaItem>, user: Guid): (r: seq<MediaItem>)
    ensures user !in users ==> r == []
    ensures user in users ==> forall it :: it in r <==> it in items && HasTmdb(it)
  {
    if user !in users then [] else Filter(items, HasTmdb)
  }

  function Other(id: Guid): Guid -> bool {
    x => x != id
  }

  /** The id is not one of `ids`. */
  function Outside(ids: set<Guid>): Guid -> bool {
    x => x !in ids
  }

  function NotCarrying(id: Guid): MediaItem -> bool {
    (it: MediaItem) => it.id != id
  }

  /** The collections part of the server's state: the records, their enumeration order, the next unused id. */
  datatype Store = Store(collections: map<Guid, BoxSet>, order: seq<Guid>, nextId: Guid)

  /** Every collection id is below the next one, so a new collection never overwrites a record. */
  predicate BelowNext(s: Store) {
    forall id :: id in s.collections ==> id < s.nextId
  }

  class Library {
    var users: seq<Guid>
    var items: seq<MediaItem>
    var collections: map<Guid, BoxSet>
    var order: seq<Guid>
    var nextId: Guid

    ghost predicate Valid()
      reads this
    {
      && EmptyGuid !in users
      && NoDuplicates(users)
      && 0 < nextId
      && (forall it :: it in items ==> 0 < it.id < nextId && it.id !in collections)
      && (forall id :: id in collections ==> 0 < id < nextId)
      && NoDuplicates(order)
      && (forall id :: id in order <==> id in collections)
    }

    /** The collections part of the state. */
    function State(): Store
      reads this
    {
      Store(collections, order, nextId)
    }

    constructor (users: seq<Guid>, items: seq<MediaItem>, nextId: Guid)
      requires EmptyGuid !in users && NoDuplicates(users)
      requires 0 < nextId && forall it :: it in items ==> 0 < it.id < nextId
      ensures Valid()
      ensures this.users == users && this.items == items && this.nextId == nextId
      ensures collections == map[] && order == []
    {
      this.users := users;
      this.items := items;
      this.collections := map[];
      this.order := [];
      this.nextId := nextId;
    }

    /** CreateItem for a new collection: the library assigns the next unused id. */
    method CreateCollection(box: BoxSet) returns (id: Guid)
      requires Valid()
      modifies this
      ensures Valid()
      ensures id == old(nextId) && id !in old(collections) && !IsMediaId(old(items), id)
      ensures collections == old(collections)[id := box]
      ensures order == old(order) + [id]
      ensures nextId == old(nextId) + 1
      ensures users == old(users) && items == old(items)
    {
      id := nextId;
      collections := collections[id := box];
      order := order + [id];
      nextId := nextId + 1;
    }

    /** UpdateItem for an existing collection. */
    method UpdateCollection(id: Guid, box: BoxSet)
      requires Valid() && id in collections
      modifies this
      ensures Valid()
      ensures collections == old(collections)[id := box]
      ensures order == old(order) && nextId == old(nextId)
      ensures users == old(users) && items == old(items)
    {
      collections := collections[id := box];
    }

    /** DeleteItem: removes the collection, or the media item, with this id. */
    method DeleteItem(id: Guid)
      requires Valid() && ItemExists(items, collections, id)
      modifies this
      ensures Valid()
      ensures old(id in collections) ==>
                collections == old(collections) - {id} && items == old(items) &&
                order == Filter(old(order), Other(id))
      ensures old(id !in collections) ==>
                items == Filter(old(items), NotCarrying(id)) &&
                collections == old(collections) && order == old(order)
      ensures users == old(users) && nextId == old(nextId)
    {
      if id in collections {
        collections := collections - {id};
        FilterKeepsNoDuplicates(order, Other(id));
        order := Filter(order, Other(id));
      } else {
        items := Filter(items, NotCarrying(id));
      }
    }
  }
}
