/**
 * The collection service: the plugin's own collections are the library's
 * collections whose name starts with "AI Recommendations: ". It lists them
 * newest first, finds one by name ignoring case, creates one (or refreshes
 * the one that already carries the name), updates, deletes, and trims the
 * listing to a maximum.
 */
module Collections {
  import opened Wrappers
  import opened Text
  import opened Entities
  import opened Sequences
  import opened Library
  import opened Resolution

  const Prefix := "AI Recommendations: "

  /** The id names a collection of the plugin's own. */
  function Recommended(collections: map<Guid, BoxSet>): Guid -> bool {
    id => id in collections && IsPrefix(Prefix, collections[id].name)
  }

  /** A collection's DateModified as a sort key. */
  function DateKey(collections: map<Guid, BoxSet>): Guid -> real {
    id => if id in collections then collections[id].dateModified as real else 0.0
  }

  /**
   * GetRecommendationCollectionsAsync: the plugin's collections, most recently
   * modified first (ties in library order); none for an unknown user.
   */
  function Listing(users: seq<Guid>, collections: map<Guid, BoxSet>, order: seq<Guid>, user: Guid): (r: seq<Guid>)
    ensures user !in users ==> r == []
    ensures user in users ==> forall id :: id in r <==> id in order && Recommended(collections)(id)
    ensures SortedDesc(r, DateKey(collections))
  {
    if user !in users then []
    else
      var own := Filter(order, Recommended(collections));
      SameMultisetSameElements(SortDesc(own, DateKey(collections)), own);
      SortDesc(own, DateKey(collections))
  }

  lemma ListingNoDuplicates(users: seq<Guid>, collections: map<Guid, BoxSet>, order: seq<Guid>, user: Guid)
    requires NoDuplicates(order)
    ensures NoDuplicates(Listing(users, collections, order, user))
  {
    if user in users {
      FilterKeepsNoDuplicates(order, Recommended(collections));
      SortKeepsNoDuplicates(Filter(order, Recommended(collections)), DateKey(collections));
    }
  }

  /** The id names a collection whose name equals `name` ignoring case. */
  function Named(collections: map<Guid, BoxSet>, name: string): Guid -> bool {
    id => id in collections && EqualsIgnoreCase(collections[id].name, name)
  }

  /**
   * FindCollectionByNameAsync: the first collection of the listing whose name
   * equals `name` ignoring case.
   */
  function Find(users: seq<Guid>, collections: map<Guid, BoxSet>, order: seq<Guid>, user: Guid, name: string): (r: Option<Guid>)
    ensures r.None? <==> forall id :: id in Listing(users, collections, order, user) ==> !Named(collections, name)(id)
    ensures r.Some? ==> r.value in collections && EqualsIgnoreCase(collections[r.value].name, name) &&
                        IsPrefix(Prefix, collections[r.value].name) && r.value in order && user in users
    ensures r.Some? ==> exists k :: 0 <= k < |Listing(users, collections, order, user)| &&
                          Listing(users, collections, order, user)[k] == r.value &&
                          forall j :: 0 <= j < k ==> !Named(collections, name)(Listing(users, collections, order, user)[j])
  {
    var listing := Listing(users, collections, order, user);
    var r := FirstMatch(listing, Named(collections, name));
    assert r.Some? ==> r.value in listing;
    r
  }

  /** The lookup ignores case: names that differ only in case find the same collection. */
  lemma FindIgnoresCase(users: seq<Guid>, collections: map<Guid, BoxSet>, order: seq<Guid>, user: Guid, a: string, b: string)
    requires EqualsIgnoreCase(a, b)
    ensures Find(users, collections, order, user, a) == Find(users, collections, order, user, b)
  {
    FirstMatchSamePredicate(Listing(users, collections, order, user), Named(collections, a), Named(collections, b));
  }

  /** A collection of the plugin's that carries the name is found, so creating it again takes the update path. */
  lemma FoundOnceStored(users: seq<Guid>, collections: map<Guid, BoxSet>, order: seq<Guid>, user: Guid, id: Guid, name: string)
    requires user in users && id in order && id in collections
    requires IsPrefix(Prefix, collections[id].name) && EqualsIgnoreCase(collections[id].name, name)
    ensures Find(users, collections, order, user, name).Some?
  {
    assert id in Listing(users, collections, order, user);
  }

  /** Refreshing a found collection without renaming it keeps it findable. */
  lemma FoundAfterRefresh(users: seq<Guid>, collections: map<Guid, BoxSet>, order: seq<Guid>, user: Guid,
                          id: Guid, name: string, box: BoxSet)
    requires Find(users, collections, order, user, name) == Some(id)
    requires box.name == collections[id].name
    ensures Find(users, collections[id := box], order, user, name).Some?
  {
    FoundOnceStored(users, collections[id := box], order, user, id, name);
  }

  /** The fixed openings of the overview written on creation and on update. */
  const GeneratedLead := "AI-generated recommendations based on your viewing preferences. Generated on "
  const UpdatedLead := "AI-generated recommendations based on your viewing preferences. Last updated on "

  function CreatedOverview(minute: string): string {
    GeneratedLead + minute
  }

  function UpdatedOverview(minute: string): string {
    UpdatedLead + minute
  }

  /**
   * UpdateRecommendationCollectionAsync: refreshes the overview and
   * DateModified of a collection when the candidates resolve to at least one
   * item. Membership is left as it was.
   */
  method UpdateCollection(lib: Library, id: Guid, recs: seq<RecommendationResult>, clock: Clock) returns (ok: bool)
    requires lib.Valid()
    modifies lib
    ensures lib.Valid()
    ensures ok <==> id in old(lib.collections) && |ResolvedIds(old(lib.items), old(lib.collections), recs)| > 0
    ensures ok ==> lib.collections == old(lib.collections)[id := old(lib.collections)[id].(
                     overview := UpdatedOverview(clock.minute), dateModified := clock.now)]
    ensures !ok ==> lib.collections == old(lib.collections)
    ensures lib.users == old(lib.users) && lib.items == old(lib.items)
    ensures lib.order == old(lib.order) && lib.nextId == old(lib.nextId)
  {
    if id !in lib.collections {
      return false;
    }
    var ids := ResolveItemIds(lib, recs);
    if |ids| == 0 {
      return false;
    }
    var box := lib.collections[id];
    lib.UpdateCollection(id, box.(overview := UpdatedOverview(clock.minute), dateModified := clock.now));
    ok := true;
  }

  /** DeleteRecommendationCollectionAsync: deletes whatever item carries the id; false when there is none. */
  method DeleteCollection(lib: Library, id: Guid) returns (ok: bool)
    requires lib.Valid()
    modifies lib
    ensures lib.Valid()
    ensures ok <==> ItemExists(old(lib.items), old(lib.collections), id)
    ensures old(id in lib.collections) ==>
              lib.collections == old(lib.collections) - {id} && lib.items == old(lib.items) &&
              lib.order == Filter(old(lib.order), Other(id))
    ensures old(id !in lib.collections) ==> lib.collections == old(lib.collections) && lib.order == old(lib.order)
    ensures ok && old(id !in lib.collections) ==> lib.items == Filter(old(lib.items), NotCarrying(id))
    ensures !ok ==> lib.items == old(lib.items)
    ensures lib.users == old(lib.users) && lib.nextId == old(lib.nextId)
  {
    if !ItemExists(lib.items, lib.collections, id) {
      return false;
    }
    lib.DeleteItem(id);
    ok := true;
  }

  /** Deleting one more collection from the enumeration order drops it as well. */
  lemma OutsideSnoc(order: seq<Guid>, gone: set<Guid>, id: Guid)
    ensures Filter(Filter(order, Outside(gone)), Other(id)) == Filter(order, Outside(gone + {id}))
  {
    FilterTwice(order, Outside(gone), Other(id), Outside(gone + {id}));
  }

  /** One more step of the deletion loop. */
  lemma DeletedOneMore(order: seq<Guid>, doomed: seq<Guid>, i: nat)
    requires i < |doomed| && NoDuplicates(doomed)
    ensures doomed[i] in doomed && doomed[i] !in Elements(doomed[..i])
    ensures Elements(doomed[..i + 1]) == Elements(doomed[..i]) + {doomed[i]}
    ensures Filter(Filter(order, Outside(Elements(doomed[..i]))), Other(doomed[i])) ==
            Filter(order, Outside(Elements(doomed[..i + 1])))
  {
    assert doomed[..i + 1] == doomed[..i] + [doomed[i]];
    ElementsSnoc(doomed[..i], doomed[i]);
    OutsideSnoc(order, Elements(doomed[..i]), doomed[i]);
  }

  /** The deletion loop of a cleanup: each collection in turn is deleted. */
  method DeleteEach(lib: Library, doomed: seq<Guid>)
    requires lib.Valid()
    requires NoDuplicates(doomed) && forall x :: x in doomed ==> x in lib.collections
    modifies lib
    ensures lib.Valid()
    ensures lib.collections == old(lib.collections) - Elements(doomed)
    ensures lib.order == Filter(old(lib.order), Outside(Elements(doomed)))
    ensures lib.users == old(lib.users) && lib.items == old(lib.items) && lib.nextId == old(lib.nextId)
  {
    assert Elements(doomed[..0]) == {};
    FilterKeepsAll(lib.order, Outside({}));
    for i := 0 to |doomed|
      invariant lib.Valid()
      invariant lib.collections == old(lib.collections) - Elements(doomed[..i])
      invariant lib.order == Filter(old(lib.order), Outside(Elements(doomed[..i])))
      invariant lib.users == old(lib.users) && lib.items == old(lib.items) && lib.nextId == old(lib.nextId)
    {
      DeletedOneMore(old(lib.order), doomed, i);
      var deleted := DeleteCollection(lib, doomed[i]);
    }
    assert doomed[..|doomed|] == doomed;
  }

  /**
   * CleanupOldCollectionsAsync: deletes the collections of the listing past
   * the first `maxCollections`, one by one, and reports success.
   */
  method Cleanup(lib: Library, user: Guid, maxCollections: int) returns (ok: bool)
    requires lib.Valid()
    modifies lib
    ensures lib.Valid()
    ensures ok
    ensures lib.collections == Kept(old(lib.users), old(lib.collections), old(lib.order), user, maxCollections)
    ensures lib.order == Filter(old(lib.order), Outside(Doomed(old(lib.users), old(lib.collections), old(lib.order), user, maxCollections)))
    ensures lib.users == old(lib.users) && lib.items == old(lib.items) && lib.nextId == old(lib.nextId)
  {
    var listing := Listing(lib.users, lib.collections, lib.order, user);
    ListingNoDuplicates(lib.users, lib.collections, lib.order, user);
    var doomed := Skip(listing, maxCollections);
    TakeSkipPartition(listing, maxCollections);
    if |doomed| == 0 {
      FilterKeepsAll(lib.order, Outside(Elements(doomed)));
      return true;
    }
    DeleteEach(lib, doomed);
    ok := true;
  }

  /** What a cleanup deletes: the listing's entries past the first `maxCollections`. */
  function Doomed(users: seq<Guid>, collections: map<Guid, BoxSet>, order: seq<Guid>, user: Guid, maxCollections: int): set<Guid> {
    Elements(Skip(Listing(users, collections, order, user), maxCollections))
  }

  /** What a cleanup leaves of the collections: all but the doomed ones. */
  function Kept(users: seq<Guid>, collections: map<Guid, BoxSet>, order: seq<Guid>, user: Guid, maxCollections: int): map<Guid, BoxSet> {
    collections - Doomed(users, collections, order, user, maxCollections)
  }

  /**
   * After a cleanup the listing holds exactly the first `maxCollections`
   * entries of the listing before it.
   */
  lemma CleanupKeepsFirst(users: seq<Guid>, collections: map<Guid, BoxSet>, order: seq<Guid>, order': seq<Guid>,
                          user: Guid, maxCollections: int)
    requires NoDuplicates(order) && forall id :: id in order <==> id in collections
    requires forall id :: id in order' <==> id in Kept(users, collections, order, user, maxCollections)
    ensures forall id :: id in Listing(users, Kept(users, collections, order, user, maxCollections), order', user) <==>
                         id in Take(Listing(users, collections, order, user), maxCollections)
  {
    var before := Listing(users, collections, order, user);
    var kept := Kept(users, collections, order, user, maxCollections);
    ListingNoDuplicates(users, collections, order, user);
    TakeSkipPartition(before, maxCollections);
    forall id ensures id in Listing(users, kept, order', user) <==> id in Take(before, maxCollections) {
      if user in users {
        assert id in Listing(users, kept, order', user) <==> id in kept && Recommended(kept)(id);
        assert id in kept ==> kept[id] == collections[id];
      }
    }
  }

  /** Every collection a cleanup keeps in the listing was modified no earlier than every one it deletes. */
  lemma CleanupKeepsNewest(users: seq<Guid>, collections: map<Guid, BoxSet>, order: seq<Guid>, user: Guid, maxCollections: int)
    ensures var before := Listing(users, collections, order, user);
            forall a, b :: a in Take(before, maxCollections) && b in Skip(before, maxCollections) ==>
              a in collections && b in collections && collections[a].dateModified >= collections[b].dateModified
  {
    var before := Listing(users, collections, order, user);
    var t, d := Take(before, maxCollections), Skip(before, maxCollections);
    TakeBeforeSkip(before, DateKey(collections), maxCollections);
    assert t + d == before;
    forall a, b | a in t && b in d
      ensures a in collections && b in collections && collections[a].dateModified >= collections[b].dateModified
    {
      assert a in before && b in before;
      assert DateKey(collections)(a) >= DateKey(collections)(b);
    }
  }

  /** A cleanup leaves alone every collection that is not one of the plugin's. */
  lemma CleanupSparesOthers(users: seq<Guid>, collections: map<Guid, BoxSet>, order: seq<Guid>, user: Guid, maxCollections: int)
    ensures forall id :: id in collections && !Recommended(collections)(id) ==>
              id in Kept(users, collections, order, user, maxCollections) &&
              Kept(users, collections, order, user, maxCollections)[id] == collections[id]
  {
    var before := Listing(users, collections, order, user);
    assert Take(before, maxCollections) + Skip(before, maxCollections) == before;
  }

  /** After a cleanup at most `maxCollections` (and never fewer than zero) of the plugin's collections remain. */
  lemma CleanupBound(users: seq<Guid>, collections: map<Guid, BoxSet>, order: seq<Guid>, order': seq<Guid>,
                     user: Guid, maxCollections: int)
    requires NoDuplicates(order) && forall id :: id in order <==> id in collections
    requires NoDuplicates(order')
    requires forall id :: id in order' <==> id in Kept(users, collections, order, user, maxCollections)
    ensures |Listing(users, Kept(users, collections, order, user, maxCollections), order', user)| <=
            if maxCollections < 0 then 0 else maxCollections
  {
    var before := Listing(users, collections, order, user);
    var kept := Kept(users, collections, order, user, maxCollections);
    CleanupKeepsFirst(users, collections, order, order', user, maxCollections);
    ListingNoDuplicates(users, collections, order, user);
    ListingNoDuplicates(users, kept, order', user);
    TakeSkipPartition(before, maxCollections);
    SameElementsSameLength(Listing(users, kept, order', user), Take(before, maxCollections));
  }

  /**
   * The update attempt on a found collection (UpdateRecommendationCollectionAsync):
   * its overview and DateModified are refreshed when some candidate resolves;
   * otherwise nothing changes.
   */
  function Refreshed(items: seq<MediaItem>, s: Store, id: Guid, recs: seq<RecommendationResult>, clock: Clock): Store {
    if id in s.collections && |ResolvedIds(items, s.collections, recs)| > 0 then
      s.(collections := s.collections[id := s.collections[id].(overview := UpdatedOverview(clock.minute), dateModified := clock.now)])
    else s
  }

  /** A refresh touches only the record it refreshes, and keeps its name. */
  lemma RefreshedKeeps(items: seq<MediaItem>, s: Store, id: Guid, recs: seq<RecommendationResult>, clock: Clock)
    ensures var after := Refreshed(items, s, id, recs, clock);
            && after.order == s.order && after.nextId == s.nextId && after.collections.Keys == s.collections.Keys
            && (forall x :: x in s.collections ==> after.collections[x].name == s.collections[x].name)
            && (forall x :: x in s.collections && x != id ==> after.collections[x] == s.collections[x])
  {
    if id in s.collections && |ResolvedIds(items, s.collections, recs)| > 0 {
      var box := s.collections[id].(overview := UpdatedOverview(clock.minute), dateModified := clock.now);
      assert Refreshed(items, s, id, recs, clock).collections == s.collections[id := box];
      assert box.name == s.collections[id].name;
    }
  }

  /** The collection a create returns, if any, and the collections afterwards. */
  datatype Created = Created(collection: Option<Guid>, after: Store)

  /**
   * CreateRecommendationCollectionAsync on the collections `s`: an unknown user
   * gets nothing; a collection of the listing already carrying the prefixed name
   * (ignoring case) is refreshed and returned; otherwise a new, empty collection
   * under the prefixed name is added when some candidate resolves.
   */
  function Create(users: seq<Guid>, items: seq<MediaItem>, s: Store, name: string,
                  recs: seq<RecommendationResult>, user: Guid, clock: Clock): Created {
    var fullName := Prefix + name;
    if user !in users then Created(None, s)
    else match Find(users, s.collections, s.order, user, fullName)
      case Some(id) => Created(Some(id), Refreshed(items, s, id, recs, clock))
      case None =>
        if |ResolvedIds(items, s.collections, recs)| == 0 then Created(None, s)
        else
          var box := BoxSet(fullName, CreatedOverview(clock.minute), clock.now, {});
          Created(Some(s.nextId), Store(s.collections[s.nextId := box], s.order + [s.nextId], s.nextId + 1))
  }

  /**
   * A create keeps every collection and its name, and changes no record but
   * the one it returns; nothing at all when it returns none.
   */
  lemma CreateKeeps(users: seq<Guid>, items: seq<MediaItem>, s: Store, name: string,
                    recs: seq<RecommendationResult>, user: Guid, clock: Clock)
    requires BelowNext(s)
    ensures var c := Create(users, items, s, name, recs, user, clock);
            && BelowNext(c.after)
            && (forall id :: id in s.collections ==>
                  id in c.after.collections && c.after.collections[id].name == s.collections[id].name)
            && (forall id :: id in s.collections && c.collection != Some(id) ==> c.after.collections[id] == s.collections[id])
            && (c.collection.None? ==> c.after == s)
  {
    var c := Create(users, items, s, name, recs, user, clock);
    if user in users {
      var found := Find(users, s.collections, s.order, user, Prefix + name);
      if found.Some? {
        assert c.after == Refreshed(items, s, found.value, recs, clock);
        RefreshedKeeps(items, s, found.value, recs, clock);
      } else if |ResolvedIds(items, s.collections, recs)| > 0 {
        assert s.nextId !in s.collections;
      }
    }
  }

  /**
   * A create returns none exactly for an unknown user or, when no collection
   * of the user's listing carries the name, when no candidate resolves; what
   * it returns is one of the plugin's collections, named as asked ignoring case.
   */
  lemma CreateReturns(users: seq<Guid>, items: seq<MediaItem>, s: Store, name: string,
                      recs: seq<RecommendationResult>, user: Guid, clock: Clock)
    ensures var c := Create(users, items, s, name, recs, user, clock);
            && (c.collection.None? <==>
                  user !in users ||
                  (Find(users, s.collections, s.order, user, Prefix + name).None? &&
                   |ResolvedIds(items, s.collections, recs)| == 0))
            && (c.collection.Some? ==>
                  && c.collection.value in c.after.collections
                  && IsPrefix(Prefix, c.after.collections[c.collection.value].name)
                  && EqualsIgnoreCase(c.after.collections[c.collection.value].name, Prefix + name))
  {
    var fullName := Prefix + name;
    assert fullName[..|Prefix|] == Prefix;
  }

  /**
   * A found collection keeps its place and the id counter; a new one takes
   * the next id and is enumerated last.
   */
  lemma CreatePlacement(users: seq<Guid>, items: seq<MediaItem>, s: Store, name: string,
                        recs: seq<RecommendationResult>, user: Guid, clock: Clock)
    requires BelowNext(s)
    ensures var c := Create(users, items, s, name, recs, user, clock);
            && (c.collection.Some? && c.collection.value in s.collections ==>
                  c.after.order == s.order && c.after.nextId == s.nextId && c.after.collections.Keys == s.collections.Keys)
            && (c.collection.Some? && c.collection.value !in s.collections ==>
                  c.collection.value == s.nextId && c.after.order == s.order + [s.nextId] && c.after.nextId == s.nextId + 1)
  {
    var c := Create(users, items, s, name, recs, user, clock);
    if user in users {
      var found := Find(users, s.collections, s.order, user, Prefix + name);
      if found.Some? {
        assert c.after == Refreshed(items, s, found.value, recs, clock);
        RefreshedKeeps(items, s, found.value, recs, clock);
      } else if |ResolvedIds(items, s.collections, recs)| > 0 {
        assert s.nextId !in s.collections;
      }
    }
  }

  /**
   * CreateRecommendationCollectionAsync: the collection returned and the
   * collections afterwards are those of Create.
   */
  method CreateCollection(lib: Library, name: string, recs: seq<RecommendationResult>, user: Guid, clock: Clock)
    returns (r: Option<Guid>)
    requires lib.Valid()
    modifies lib
    ensures lib.Valid()
    ensures lib.users == old(lib.users) && lib.items == old(lib.items)
    ensures Created(r, lib.State()) == Create(old(lib.users), old(lib.items), old(lib.State()), name, recs, user, clock)
  {
    if user !in lib.users {
      return None;
    }
    var fullName := Prefix + name;
    var existing := Find(lib.users, lib.collections, lib.order, user, fullName);
    if existing.Some? {
      RefreshExisting(lib, existing.value, recs, clock);
      return existing;
    }
    var ids := ResolveItemIds(lib, recs);
    if |ids| == 0 {
      return None;
    }
    var id := AddCollection(lib, fullName, clock);
    r := Some(id);
  }

  /** The update path of a create: the found collection is refreshed as Refreshed says. */
  method RefreshExisting(lib: Library, id: Guid, recs: seq<RecommendationResult>, clock: Clock)
    requires lib.Valid()
    modifies lib
    ensures lib.Valid()
    ensures lib.users == old(lib.users) && lib.items == old(lib.items)
    ensures lib.State() == Refreshed(old(lib.items), old(lib.State()), id, recs, clock)
  {
    var _ := UpdateCollection(lib, id, recs, clock);
  }

  /** The creation path: a new, empty collection under the full name, with the next id, enumerated last. */
  method AddCollection(lib: Library, fullName: string, clock: Clock) returns (id: Guid)
    requires lib.Valid()
    modifies lib
    ensures lib.Valid()
    ensures id == old(lib.nextId)
    ensures lib.State() == Store(old(lib.collections)[id := BoxSet(fullName, CreatedOverview(clock.minute), clock.now, {})],
                                 old(lib.order) + [id], old(lib.nextId) + 1)
    ensures lib.users == old(lib.users) && lib.items == old(lib.items)
  {
    id := lib.CreateCollection(BoxSet(fullName, CreatedOverview(clock.minute), clock.now, {}));
  }
}
