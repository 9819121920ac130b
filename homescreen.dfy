/**
 * The home-screen service: four rows of item ids for a user (recommended,
 * trending, similar to favourites, new releases). Each row first tries the
 * scoring service's answer, filtered by the row's keywords and resolved to
 * library items; when that yields nothing, or when the configuration forces
 * it, the row falls back to a query over the library. The scoring service's
 * answer is a parameter; library queries scan the items in library order.
 */
module HomeScreen {
  import opened Wrappers
  import opened Text
  import opened Entities
  import opened Sequences
  import opened Library
  import opened Settings
  import opened Resolution

  /** HasUserWatched: the user's record marks the item played or counts a play; no record means unwatched. */
  predicate HasUserWatched(users: seq<Guid>, it: MediaItem, user: Guid) {
    user in users && user in it.userData && (it.userData[user].played || it.userData[user].playCount > 0)
  }

  function Unwatched(users: seq<Guid>, user: Guid): MediaItem -> bool {
    (it: MediaItem) => !HasUserWatched(users, it, user)
  }

  /** A favourite: marked favourite, or rated at least 4. */
  function FavoriteOf(user: Guid): MediaItem -> bool {
    (it: MediaItem) => user in it.userData &&
          (it.userData[user].isFavorite ||
           (it.userData[user].rating.Some? && it.userData[user].rating.value >= 4.0))
  }

  /** The genres of `items`, item after item, repeats kept. */
  function Genres(items: seq<MediaItem>): seq<string> {
    if |items| == 0 then [] else Genres(items[..|items| - 1]) + items[|items| - 1].genres
  }

  lemma {:induction false} GenresMembers(items: seq<MediaItem>)
    ensures forall g :: g in Genres(items) <==> exists it :: it in items && g in it.genres
  {
    if |items| > 0 {
      var init := items[..|items| - 1];
      GenresMembers(init);
      assert items == init + [items[|items| - 1]];
    }
  }

  /** The genre tally: each genre of `gs` mapped to its number of occurrences. */
  function Tally(gs: seq<string>): map<string, nat> {
    if |gs| == 0 then map[]
    else
      var counts := Tally(gs[..|gs| - 1]);
      var g := gs[|gs| - 1];
      counts[g := (if g in counts then counts[g] else 0) + 1]
  }

  lemma {:induction false} TallyCounts(gs: seq<string>)
    ensures forall g :: g in Tally(gs) <==> g in gs
    ensures forall g :: g in Tally(gs) ==> Tally(gs)[g] == Count(gs, g)
  {
    if |gs| > 0 {
      var init := gs[..|gs| - 1];
      TallyCounts(init);
      assert gs == init + [gs[|gs| - 1]];
    }
  }

  /** The tally as a ranking key. */
  function CountOf(counts: map<string, nat>): string -> real {
    g => if g in counts then counts[g] as real else 0.0
  }

  /** Every genre occurrence among the user's favourites among their 50 most recently watched items. */
  function FavoriteGenreOccurrences(users: seq<Guid>, items: seq<MediaItem>, user: Guid): seq<string> {
    Genres(Filter(RecentlyWatched(users, items, user, 50), FavoriteOf(user)))
  }

  /** The ranking of GetUserFavoriteGenresAsync: the distinct genres by count, ties in first-seen order, the first five. */
  function Rank(occurrences: seq<string>): (r: seq<string>)
    ensures |r| <= 5
  {
    Take(SortDesc(Distinct(occurrences), CountOf(Tally(occurrences))), 5)
  }

  /** The ranking keeps at most five distinct genres, each of which occurs. */
  lemma RankSound(occurrences: seq<string>)
    ensures NoDuplicates(Rank(occurrences))
    ensures forall g :: g in Rank(occurrences) ==> g in occurrences
  {
    var key := CountOf(Tally(occurrences));
    var keys := Distinct(occurrences);
    var sorted := SortDesc(keys, key);
    SameMultisetSameElements(sorted, keys);
    SortKeepsNoDuplicates(keys, key);
    TakeSkipPartition(sorted, 5);
  }

  /** The ranking puts the most frequent genres first. */
  lemma RankOrdered(occurrences: seq<string>)
    ensures forall i, j :: 0 <= i < j < |Rank(occurrences)| ==>
              Count(occurrences, Rank(occurrences)[i]) >= Count(occurrences, Rank(occurrences)[j])
  {
    var key := CountOf(Tally(occurrences));
    var sorted := SortDesc(Distinct(occurrences), key);
    var r := Rank(occurrences);
    TallyCounts(occurrences);
    RankSound(occurrences);
    TakeOfSorted(sorted, key, 5);
    forall i, j | 0 <= i < j < |r| ensures Count(occurrences, r[i]) >= Count(occurrences, r[j]) {
      assert r[i] in r && r[j] in r;
      assert key(r[i]) >= key(r[j]);
    }
  }

  /** A genre that occurs but is left out only loses to five genres each at least as frequent. */
  lemma RankKeepsMostFrequent(occurrences: seq<string>)
    ensures forall g :: g in occurrences && g !in Rank(occurrences) ==>
              |Rank(occurrences)| == 5 && forall x :: x in Rank(occurrences) ==> Count(occurrences, x) >= Count(occurrences, g)
  {
    var key := CountOf(Tally(occurrences));
    var sorted := SortDesc(Distinct(occurrences), key);
    TallyCounts(occurrences);
    SameMultisetSameElements(sorted, Distinct(occurrences));
    TakeOfSortedLeftOut(sorted, key, 5);
    assert forall x :: x in Rank(occurrences) ==> x in sorted;
  }

  /**
   * GetUserFavoriteGenresAsync: at most five distinct genres of the user's
   * recent favourites, most frequent first; a genre that occurs is left out
   * only for five at least as frequent. None for an unknown user.
   */
  function TopGenres(users: seq<Guid>, items: seq<MediaItem>, user: Guid): (r: seq<string>)
    ensures |r| <= 5 && NoDuplicates(r)
    ensures user !in users ==> r == []
    ensures forall g :: g in r ==> g in FavoriteGenreOccurrences(users, items, user)
    ensures forall i, j :: 0 <= i < j < |r| ==>
              Count(FavoriteGenreOccurrences(users, items, user), r[i]) >= Count(FavoriteGenreOccurrences(users, items, user), r[j])
    ensures user in users ==> forall g :: g in FavoriteGenreOccurrences(users, items, user) && g !in r ==>
              |r| == 5 && forall x :: x in r ==>
                Count(FavoriteGenreOccurrences(users, items, user), x) >= Count(FavoriteGenreOccurrences(users, items, user), g)
  {
    if user !in users then []
    else
      var occurrences := FavoriteGenreOccurrences(users, items, user);
      RankSound(occurrences);
      RankOrdered(occurrences);
      RankKeepsMostFrequent(occurrences);
      Rank(occurrences)
  }

  /** One genre counted: its tally bumped, and a genre not seen before appended to the key order. */
  lemma TallyStep(seen: seq<string>, genre: string)
    ensures Tally(seen + [genre]) ==
              Tally(seen)[genre := (if genre in Tally(seen) then Tally(seen)[genre] else 0) + 1]
    ensures Distinct(seen + [genre]) == if genre in Tally(seen) then Distinct(seen) else Distinct(seen) + [genre]
  {
    TallyCounts(seen);
    DistinctSnoc(seen, genre);
    assert (seen + [genre])[..|seen|] == seen;
  }

  /** TallyStep for the `j`-th genre of an item whose predecessors' genres are `before`. */
  lemma TallyNext(before: seq<string>, gs: seq<string>, j: int)
    requires 0 <= j < |gs|
    ensures var seen := before + gs[..j];
            && Tally(before + gs[..j + 1]) == Tally(seen)[gs[j] := (if gs[j] in Tally(seen) then Tally(seen)[gs[j]] else 0) + 1]
            && Distinct(before + gs[..j + 1]) == if gs[j] in Tally(seen) then Distinct(seen) else Distinct(seen) + [gs[j]]
  {
    assert gs[..j + 1] == gs[..j] + [gs[j]];
    assert before + gs[..j + 1] == (before + gs[..j]) + [gs[j]];
    TallyStep(before + gs[..j], gs[j]);
  }

  /** The genres of the first `i + 1` items: those of the first `i`, then the next item's. */
  lemma GenresNext(items: seq<MediaItem>, i: int)
    requires 0 <= i < |items|
    ensures Genres(items[..i + 1]) == Genres(items[..i]) + items[i].genres
  {
    assert items[..i + 1][..i] == items[..i];
  }

  /**
   * The inner loop of the tally in GetUserFavoriteGenresAsync: each genre
   * of one item bumps its count, a new genre joining the dictionary's key
   * order. `seen` is every genre counted before this item.
   */
  method CountItemGenres(counts0: map<string, nat>, keys0: seq<string>, itemGenres: seq<string>, ghost seen: seq<string>)
    returns (counts: map<string, nat>, keys: seq<string>)
    requires counts0 == Tally(seen) && keys0 == Distinct(seen)
    ensures counts == Tally(seen + itemGenres) && keys == Distinct(seen + itemGenres)
  {
    counts, keys := counts0, keys0;
    assert seen + itemGenres[..0] == seen;
    for j := 0 to |itemGenres|
      invariant counts == Tally(seen + itemGenres[..j]) && keys == Distinct(seen + itemGenres[..j])
    {
      var genre := itemGenres[j];
      TallyNext(seen, itemGenres, j);
      if genre !in counts {
        keys := keys + [genre];
      }
      counts := counts[genre := (if genre in counts then counts[genre] else 0) + 1];
    }
    assert itemGenres[..|itemGenres|] == itemGenres;
  }

  /** The outer loop of the tally: the favourite items in turn. */
  method CountGenres(favoriteItems: seq<MediaItem>) returns (counts: map<string, nat>, keys: seq<string>)
    ensures counts == Tally(Genres(favoriteItems)) && keys == Distinct(Genres(favoriteItems))
  {
    counts, keys := map[], [];
    for i := 0 to |favoriteItems|
      invariant counts == Tally(Genres(favoriteItems[..i])) && keys == Distinct(Genres(favoriteItems[..i]))
    {
      GenresNext(favoriteItems, i);
      counts, keys := CountItemGenres(counts, keys, favoriteItems[i].genres, Genres(favoriteItems[..i]));
    }
    assert favoriteItems[..|favoriteItems|] == favoriteItems;
  }

  /**
   * GetUserFavoriteGenresAsync: the favourites among the 50 most recently
   * watched items, their genres tallied, the keys ranked by count and the
   * first five kept.
   */
  method FavoriteGenres(lib: Library, user: Guid) returns (genres: seq<string>)
    ensures genres == TopGenres(lib.users, lib.items, user)
  {
    if user !in lib.users {
      return [];
    }
    var recentlyWatched := RecentlyWatched(lib.users, lib.items, user, 50);
    var favoriteItems := Filter(recentlyWatched, FavoriteOf(user));
    var counts, keys := CountGenres(favoriteItems);
    genres := Take(SortDesc(keys, CountOf(counts)), 5);
    assert genres == Rank(Genres(favoriteItems));
  }

  /** The item carries one of `genres` (a Genres query matches any of them). */
  function InAnyGenre(genres: seq<string>): MediaItem -> bool {
    (it: MediaItem) => exists g :: g in genres && g in it.genres
  }

  /** The item's community rating is known and at least `least` (MinCommunityRating). */
  function RatedAtLeast(least: real): MediaItem -> bool {
    (it: MediaItem) => it.communityRating.Some? && it.communityRating.value >= least
  }

  function InAnyGenreRatedAtLeast(genres: seq<string>, least: real): MediaItem -> bool {
    (it: MediaItem) => InAnyGenre(genres)(it) && RatedAtLeast(least)(it)
  }

  /** A library query: the items passing `p`, in library order, at most `limit` of them. */
  function Query(items: seq<MediaItem>, p: MediaItem -> bool, limit: int): (r: seq<MediaItem>)
    ensures |r| <= limit || |r| == 0
    ensures forall it :: it in r ==> it in items && p(it)
  {
    var all := Filter(items, p);
    var r := Take(all, limit);
    assert forall it :: it in r ==> it in all;
    r
  }

  /** Strategy 1 of GetEmbyRecommendationsAsync: unwatched items of the top three genres, from a query limited to `limit`. */
  function GenrePicks(users: seq<Guid>, items: seq<MediaItem>, user: Guid, limit: int): (r: seq<MediaItem>)
    ensures |r| <= (if limit < 0 then 0 else limit)
    ensures forall it :: it in r ==>
              it in items && !HasUserWatched(users, it, user) && InAnyGenre(Take(TopGenres(users, items, user), 3))(it)
  {
    var genres := TopGenres(users, items, user);
    if |genres| > 0 then Filter(Query(items, InAnyGenre(Take(genres, 3)), limit), Unwatched(users, user)) else []
  }

  /** Strategy 2 of GetEmbyRecommendationsAsync: unwatched items rated at least 7, from a query limited to twice `limit`. */
  function RatedPicks(users: seq<Guid>, items: seq<MediaItem>, user: Guid, limit: int): (r: seq<MediaItem>)
    ensures forall it :: it in r ==> it in items && !HasUserWatched(users, it, user) && RatedAtLeast(7.0)(it)
  {
    Filter(Query(items, RatedAtLeast(7.0), limit * 2), Unwatched(users, user))
  }

  /** `first`, then, while short of `limit`, as many of `more` as fill it. */
  function TopUp(first: seq<MediaItem>, more: seq<MediaItem>, limit: int): seq<MediaItem> {
    if |first| < limit then first + Take(more, limit - |first|) else first
  }

  lemma TopUpSound(first: seq<MediaItem>, more: seq<MediaItem>, limit: int)
    requires |first| <= (if limit < 0 then 0 else limit)
    ensures |TopUp(first, more, limit)| <= (if limit < 0 then 0 else limit)
    ensures TopUp(first, more, limit)[..|first|] == first
    ensures forall it :: it in TopUp(first, more, limit) ==> it in first || it in more
    ensures Take(TopUp(first, more, limit), limit) == TopUp(first, more, limit)
  {
    var extra := Take(more, limit - |first|);
    assert forall it :: it in extra ==> it in more;
    if |first| < limit {
      assert TopUp(first, more, limit) == first + extra;
      assert (first + extra)[..|first|] == first;
    }
  }

  /**
   * GetEmbyRecommendationsAsync: the genre picks, then, while short of
   * `limit`, topped up with rated picks; at most `limit` in all. An unknown
   * user gets nothing.
   */
  function EmbyRecommendations(users: seq<Guid>, items: seq<MediaItem>, user: Guid, limit: int): seq<MediaItem> {
    if user !in users then []
    else Take(TopUp(GenrePicks(users, items, user, limit), RatedPicks(users, items, user, limit), limit), limit)
  }

  /**
   * At most `limit` items, none for an unknown user; every one unwatched, in
   * the library, and either of a top-three favourite genre or rated at least 7.
   */
  lemma EmbyRecommendationsSound(users: seq<Guid>, items: seq<MediaItem>, user: Guid, limit: int)
    ensures |EmbyRecommendations(users, items, user, limit)| <= (if limit < 0 then 0 else limit)
    ensures user !in users ==> EmbyRecommendations(users, items, user, limit) == []
    ensures forall it :: it in EmbyRecommendations(users, items, user, limit) ==>
              it in items && !HasUserWatched(users, it, user) &&
              (InAnyGenre(Take(TopGenres(users, items, user), 3))(it) || RatedAtLeast(7.0)(it))
  {
    if user in users {
      TopUpSound(GenrePicks(users, items, user, limit), RatedPicks(users, items, user, limit), limit);
    }
  }

  /** The genre picks come first; the rated picks only fill the rest. */
  lemma EmbyGenrePicksFirst(users: seq<Guid>, items: seq<MediaItem>, user: Guid, limit: int)
    requires user in users
    ensures var fromGenres := GenrePicks(users, items, user, limit);
            |fromGenres| <= |EmbyRecommendations(users, items, user, limit)| &&
            EmbyRecommendations(users, items, user, limit)[..|fromGenres|] == fromGenres
  {
    TopUpSound(GenrePicks(users, items, user, limit), RatedPicks(users, items, user, limit), limit);
  }

  /** GetEmbyRecentlyAddedAsync: the unwatched items among the first `limit` of the library. */
  function RecentlyAdded(users: seq<Guid>, items: seq<MediaItem>, user: Guid, limit: int): (r: seq<MediaItem>)
    ensures |r| <= (if limit < 0 then 0 else limit)
    ensures user !in users ==> r == []
    ensures forall it :: it in r ==> it in items && !HasUserWatched(users, it, user)
    ensures forall i :: 0 <= i < |items| && i < limit && !HasUserWatched(users, items[i], user) && user in users ==> items[i] in r
  {
    if user !in users then []
    else
      var scanned := Take(items, limit);
      assert forall it :: it in scanned ==> it in items;
      assert forall i :: 0 <= i < |items| && i < limit ==> scanned[i] == items[i];
      Filter(scanned, Unwatched(users, user))
  }

  /**
   * GetEmbyGenreBasedRecommendationsAsync: unwatched items of the top two
   * favourite genres rated at least 6, from a query limited to twice `limit`,
   * at most `limit` of them; the recently added row when the user has no
   * favourite genre.
   */
  function GenreBased(users: seq<Guid>, items: seq<MediaItem>, user: Guid, limit: int): (r: seq<MediaItem>)
    ensures |r| <= (if limit < 0 then 0 else limit)
    ensures user !in users ==> r == []
    ensures forall it :: it in r ==> it in items && !HasUserWatched(users, it, user)
    ensures |TopGenres(users, items, user)| == 0 ==> r == RecentlyAdded(users, items, user, limit)
    ensures |TopGenres(users, items, user)| > 0 ==>
              forall it :: it in r ==> InAnyGenreRatedAtLeast(Take(TopGenres(users, items, user), 2), 6.0)(it)
  {
    if user !in users then []
    else
      var genres := TopGenres(users, items, user);
      if |genres| == 0 then RecentlyAdded(users, items, user, limit)
      else
        var unwatched := Filter(Query(items, InAnyGenreRatedAtLeast(Take(genres, 2), 6.0), limit * 2), Unwatched(users, user));
        var r := Take(unwatched, limit);
        assert forall it :: it in r ==> it in unwatched;
        r
  }

  /** The ids of `items`, in order. */
  function Ids(items: seq<MediaItem>): (ids: seq<Guid>)
    ensures |ids| == |items|
    ensures forall i :: 0 <= i < |items| ==> ids[i] == items[i].id
  {
    seq(|items|, i requires 0 <= i < |items| => items[i].id)
  }

  /** A candidate whose reason mentions "trending" or "popular", or one of whose tags mentions "trending". */
  predicate IsTrending(rec: RecommendationResult) {
    Contains(ToLower(rec.reason), "trending") || Contains(ToLower(rec.reason), "popular") ||
    exists t :: t in rec.tags && Contains(ToLower(t), "trending")
  }

  /** A candidate whose reason mentions "similar", "like" or "favorite". */
  predicate IsSimilar(rec: RecommendationResult) {
    Contains(ToLower(rec.reason), "similar") || Contains(ToLower(rec.reason), "like") ||
    Contains(ToLower(rec.reason), "favorite")
  }

  /** A candidate whose reason mentions "new", "recent" or "release". */
  predicate IsNewRelease(rec: RecommendationResult) {
    Contains(ToLower(rec.reason), "new") || Contains(ToLower(rec.reason), "recent") ||
    Contains(ToLower(rec.reason), "release")
  }

  function Trending(): RecommendationResult -> bool { (rec: RecommendationResult) => IsTrending(rec) }
  function Similar(): RecommendationResult -> bool { (rec: RecommendationResult) => IsSimilar(rec) }
  function NewRelease(): RecommendationResult -> bool { (rec: RecommendationResult) => IsNewRelease(rec) }

  lemma IdsOfLibraryItems(items: seq<MediaItem>, collections: map<Guid, BoxSet>, picks: seq<MediaItem>)
    requires forall it :: it in picks ==> it in items
    ensures forall id :: id in Ids(picks) ==> ItemExists(items, collections, id)
  {
    forall id | id in Ids(picks) ensures ItemExists(items, collections, id) {
      var i :| 0 <= i < |picks| && Ids(picks)[i] == id;
      assert picks[i] in picks;
    }
  }

  /** The row made from resolved candidates: distinct ids of library items, at most `limit` of them. */
  lemma AnswerRowSound(items: seq<MediaItem>, collections: map<Guid, BoxSet>, recs: seq<RecommendationResult>, limit: int)
    ensures var r := Take(ResolvedIds(items, collections, recs), limit);
            && |r| <= (if limit < 0 then 0 else limit)
            && NoDuplicates(r)
            && forall id :: id in r ==> ItemExists(items, collections, id)
  {
    var ids := ResolvedIds(items, collections, recs);
    ResolvedIdsSound(items, collections, recs);
    TakeSkipPartition(ids, limit);
  }

  /**
   * GetRecommendedItemsForHomeScreenAsync: the fallback when the
   * configuration forces it; otherwise the first `limit` resolved candidates,
   * or the fallback when none resolves.
   */
  method GetRecommendedItemsForHomeScreen(lib: Library, config: Option<Configuration>, user: Guid, limit: int,
                                          answer: seq<RecommendationResult>)
    returns (ids: seq<Guid>)
    ensures FallbackOnly(config) || |ResolvedIds(lib.items, lib.collections, answer)| == 0 ==>
              ids == Ids(EmbyRecommendations(lib.users, lib.items, user, limit))
    ensures !FallbackOnly(config) && |ResolvedIds(lib.items, lib.collections, answer)| > 0 ==>
              ids == Take(ResolvedIds(lib.items, lib.collections, answer), limit)
    ensures |ids| <= (if limit < 0 then 0 else limit)
    ensures forall id :: id in ids ==> ItemExists(lib.items, lib.collections, id)
  {
    var fallback := EmbyRecommendations(lib.users, lib.items, user, limit);
    EmbyRecommendationsSound(lib.users, lib.items, user, limit);
    IdsOfLibraryItems(lib.items, lib.collections, fallback);
    AnswerRowSound(lib.items, lib.collections, answer, limit);
    if FallbackOnly(config) {
      return Ids(fallback);
    }
    if |answer| > 0 {
      var resolved := ResolveItemIds(lib, answer);
      if |resolved| > 0 {
        return Take(resolved, limit);
      }
    }
    ids := Ids(fallback);
  }

  /**
   * GetTrendingItemsAsync: the resolved trending candidates (at most
   * `limit`), or the recently added row when the configuration forces the
   * fallback or no trending candidate resolves.
   */
  method GetTrendingItems(lib: Library, config: Option<Configuration>, user: Guid, limit: int,
                          answer: seq<RecommendationResult>)
    returns (ids: seq<Guid>)
    ensures FallbackOnly(config) || |ResolvedIds(lib.items, lib.collections, Filter(answer, Trending()))| == 0 ==>
              ids == Ids(RecentlyAdded(lib.users, lib.items, user, limit))
    ensures !FallbackOnly(config) && |ResolvedIds(lib.items, lib.collections, Filter(answer, Trending()))| > 0 ==>
              ids == Take(ResolvedIds(lib.items, lib.collections, Filter(answer, Trending())), limit)
    ensures |ids| <= (if limit < 0 then 0 else limit)
    ensures forall id :: id in ids ==> ItemExists(lib.items, lib.collections, id)
  {
    var fallback := RecentlyAdded(lib.users, lib.items, user, limit);
    IdsOfLibraryItems(lib.items, lib.collections, fallback);
    var trending := Filter(answer, Trending());
    AnswerRowSound(lib.items, lib.collections, trending, limit);
    if FallbackOnly(config) {
      return Ids(fallback);
    }
    if |answer| > 0 {
      var resolved := ResolveItemIds(lib, trending);
      if |resolved| > 0 {
        return Take(resolved, limit);
      }
    }
    ids := Ids(fallback);
  }

  /**
   * GetSimilarToFavoritesAsync: the resolved candidates recommended for
   * similarity (at most `limit`), or the genre-based row when the
   * configuration forces the fallback or no such candidate resolves.
   */
  method GetSimilarToFavorites(lib: Library, config: Option<Configuration>, user: Guid, limit: int,
                               answer: seq<RecommendationResult>)
    returns (ids: seq<Guid>)
    ensures FallbackOnly(config) || |ResolvedIds(lib.items, lib.collections, Filter(answer, Similar()))| == 0 ==>
              ids == Ids(GenreBased(lib.users, lib.items, user, limit))
    ensures !FallbackOnly(config) && |ResolvedIds(lib.items, lib.collections, Filter(answer, Similar()))| > 0 ==>
              ids == Take(ResolvedIds(lib.items, lib.collections, Filter(answer, Similar())), limit)
    ensures |ids| <= (if limit < 0 then 0 else limit)
    ensures forall id :: id in ids ==> ItemExists(lib.items, lib.collections, id)
  {
    var fallback := GenreBased(lib.users, lib.items, user, limit);
    IdsOfLibraryItems(lib.items, lib.collections, fallback);
    var similar := Filter(answer, Similar());
    AnswerRowSound(lib.items, lib.collections, similar, limit);
    if FallbackOnly(config) {
      return Ids(fallback);
    }
    if |answer| > 0 {
      var resolved := ResolveItemIds(lib, similar);
      if |resolved| > 0 {
        return Take(resolved, limit);
      }
    }
    ids := Ids(fallback);
  }

  /**
   * GetNewReleasesAsync: the resolved candidates about new or recent
   * releases, at most `limit`; there is no fallback and the configuration is
   * not consulted.
   */
  method GetNewReleases(lib: Library, user: Guid, limit: int, answer: seq<RecommendationResult>)
    returns (ids: seq<Guid>)
    ensures ids == Take(ResolvedIds(lib.items, lib.collections, Filter(answer, NewRelease())), limit)
    ensures |ids| <= (if limit < 0 then 0 else limit) && NoDuplicates(ids)
    ensures forall id :: id in ids ==> ItemExists(lib.items, lib.collections, id)
    ensures forall id :: id in ids ==>
              exists rec :: rec in answer && IsNewRelease(rec) && ResolveOne(lib.items, lib.collections, rec) == Some(id)
  {
    var newReleases := Filter(answer, NewRelease());
    AnswerRowSound(lib.items, lib.collections, newReleases, limit);
    ResolvedIdsSound(lib.items, lib.collections, newReleases);
    var resolved := ResolveItemIds(lib, newReleases);
    ids := Take(resolved, limit);
    forall id | id in ids
      ensures exists rec :: rec in answer && IsNewRelease(rec) && ResolveOne(lib.items, lib.collections, rec) == Some(id)
    {
      var k :| 0 <= k < |newReleases| && ResolveOne(lib.items, lib.collections, newReleases[k]) == Some(id);
      assert newReleases[k] in newReleases;
    }
  }
}
