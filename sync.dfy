/**
 * The sync service: a user's recent watch history and ratings sent to the
 * scoring service (SyncUserAsync), every user in turn (SyncAllUsersAsync),
 * the content library's metadata (SyncContentLibraryAsync), and the stored
 * time of the last sync. The scoring service's verdict on each upload is a
 * parameter; events handed to the message bus are returned in order.
 */
module Sync {
  import opened Wrappers
  import opened Text
  import opened Entities
  import opened Sequences
  import opened Library
  import opened Settings
  import opened Resolution

  /** GetTmdbId: the "Tmdb" provider id read as a 32-bit integer (int.TryParse), if it is one. */
  function GetTmdbId(item: MediaItem): Option<Int32> {
    match ProviderId(item, "Tmdb")
    case None => None
    case Some(s) => ParseInt32(s)
  }

  /** GetTvdbId: the "Tvdb" provider id read as a 32-bit integer, if it is one. */
  function GetTvdbId(item: MediaItem): Option<Int32> {
    match ProviderId(item, "Tvdb")
    case None => None
    case Some(s) => ParseInt32(s)
  }

  /** The id the resolution step matches on is the id the sync sends: rendering then parsing gives it back. */
  lemma TmdbIdRoundTrip(item: MediaItem, tmdbId: Int32)
    requires TmdbMatches(item, tmdbId)
    ensures GetTmdbId(item) == Some(tmdbId)
  {
    ParseRendersRoundTrip(tmdbId);
  }

  /** The watch record of one item, from the user's play data. */
  function WatchRecord(item: MediaItem, data: UserItemData): UserWatchData {
    UserWatchData(item.id, item.name, item.itemType, GetTmdbId(item), GetTvdbId(item),
                  data.lastPlayedDate, data.playbackPositionTicks, data.playCount, data.isFavorite, data.rating)
  }

  /** The rating of one item, if the user rated it; dated by the last play, or now when never played. */
  function RatingRecord(item: MediaItem, data: UserItemData, now: Timestamp): Option<UserRating> {
    if data.rating.Some? then
      Some(UserRating(item.id, data.rating.value, if data.lastPlayedDate.Some? then data.lastPlayedDate.value else now))
    else None
  }

  /** An item without play data for the user is skipped. */
  function WatchRecordOf(user: Guid): MediaItem -> Option<UserWatchData> {
    (it: MediaItem) => match UserDataOf(it, user)
                       case None => None
                       case Some(data) => Some(WatchRecord(it, data))
  }

  function RatingOf(user: Guid, now: Timestamp): MediaItem -> Option<UserRating> {
    (it: MediaItem) => match UserDataOf(it, user)
                       case None => None
                       case Some(data) => RatingRecord(it, data, now)
  }

  /** The upload of SyncUserAsync: the records of the 500 most recently watched items, their ratings, and the time. */
  function SyncPayload(users: seq<Guid>, items: seq<MediaItem>, user: Guid, now: Timestamp): UserSyncData {
    var watched := RecentlyWatched(users, items, user, 500);
    UserSyncData(user, FilterMap(watched, WatchRecordOf(user)), FilterMap(watched, RatingOf(user, now)), now)
  }

  /** Every watched item has play data, so no item is skipped: one record per item, in recency order. */
  lemma {:induction false} WatchHistoryComplete(watched: seq<MediaItem>, user: Guid)
    requires forall it :: it in watched ==> user in it.userData
    ensures |FilterMap(watched, WatchRecordOf(user))| == |watched|
    ensures forall i :: 0 <= i < |watched| ==>
              FilterMap(watched, WatchRecordOf(user))[i] == WatchRecord(watched[i], watched[i].userData[user])
  {
    if |watched| > 0 {
      var init := watched[..|watched| - 1];
      assert forall it :: it in init ==> it in watched;
      WatchHistoryComplete(init, user);
      assert watched[|watched| - 1] in watched;
    }
  }

  /**
   * The ratings are exactly the ratings of the records: each rating belongs
   * to a record of the same item carrying that rating, and each rated record
   * has its rating, dated by the last play or else by the sync time.
   */
  lemma RatingsMatchHistory(watched: seq<MediaItem>, user: Guid, now: Timestamp)
    ensures forall r :: r in FilterMap(watched, RatingOf(user, now)) ==>
              exists w :: w in FilterMap(watched, WatchRecordOf(user)) && w.itemId == r.itemId && w.userRating == Some(r.rating)
    ensures forall w :: w in FilterMap(watched, WatchRecordOf(user)) && w.userRating.Some? ==>
              UserRating(w.itemId, w.userRating.value, if w.lastPlayedDate.Some? then w.lastPlayedDate.value else now)
                in FilterMap(watched, RatingOf(user, now))
  {
    var history := FilterMap(watched, WatchRecordOf(user));
    var ratings := FilterMap(watched, RatingOf(user, now));
    FilterMapMembers(watched, WatchRecordOf(user));
    FilterMapMembers(watched, RatingOf(user, now));
    forall r | r in ratings
      ensures exists w :: w in history && w.itemId == r.itemId && w.userRating == Some(r.rating)
    {
      var i :| 0 <= i < |watched| && RatingOf(user, now)(watched[i]) == Some(r);
      var w := WatchRecordOf(user)(watched[i]).value;
      assert WatchRecordOf(user)(watched[i]) == Some(w);
    }
    forall w | w in history && w.userRating.Some?
      ensures UserRating(w.itemId, w.userRating.value, if w.lastPlayedDate.Some? then w.lastPlayedDate.value else now) in ratings
    {
      var i :| 0 <= i < |watched| && WatchRecordOf(user)(watched[i]) == Some(w);
      assert RatingOf(user, now)(watched[i]) ==
             Some(UserRating(w.itemId, w.userRating.value, if w.lastPlayedDate.Some? then w.lastPlayedDate.value else now));
    }
  }

  /**
   * The upload of a known user holds one record per recently watched item
   * (at most 500), each about a played item of the library with a TMDB id,
   * most recently played first; an unknown user's upload is empty.
   */
  lemma SyncPayloadSound(users: seq<Guid>, items: seq<MediaItem>, user: Guid, now: Timestamp)
    ensures var p := SyncPayload(users, items, user, now);
            && p.userId == user && p.lastSyncTime == now
            && |p.watchHistory| == |RecentlyWatched(users, items, user, 500)| <= 500
            && (user !in users ==> p.watchHistory == [] && p.ratings == [])
            && forall i :: 0 <= i < |p.watchHistory| ==>
                 var it := RecentlyWatched(users, items, user, 500)[i];
                 && it in items && HasTmdb(it) && it.userData[user].played
                 && p.watchHistory[i] == WatchRecord(it, it.userData[user])
  {
    var watched := RecentlyWatched(users, items, user, 500);
    WatchHistoryComplete(watched, user);
    forall i | 0 <= i < |watched| ensures watched[i] in items && HasTmdb(watched[i]) && watched[i].userData[user].played {
      assert watched[i] in watched;
    }
  }

  /**
   * SyncUserAsync: false for an unknown user; otherwise the upload is built
   * item by item and sent, and on acceptance a "user_synced" event carrying
   * the number of records follows. The result is the scoring service's verdict.
   */
  method SyncUser(lib: Library, user: Guid, clock: Clock, accepts: UserSyncData -> bool)
    returns (ok: bool, events: seq<Event>)
    ensures ok <==> user in lib.users && Accepted(lib.users, lib.items, clock.now, accepts, user)
    ensures events == if ok then [Synced(lib.users, lib.items, clock.now, user)] else []
  {
    if user !in lib.users {
      return false, [];
    }
    var recentlyWatched := RecentlyWatched(lib.users, lib.items, user, 500);
    var watchData: seq<UserWatchData> := [];
    var ratings: seq<UserRating> := [];
    for i := 0 to |recentlyWatched|
      invariant watchData == FilterMap(recentlyWatched[..i], WatchRecordOf(user))
      invariant ratings == FilterMap(recentlyWatched[..i], RatingOf(user, clock.now))
    {
      FilterMapStep(recentlyWatched, WatchRecordOf(user), i);
      FilterMapStep(recentlyWatched, RatingOf(user, clock.now), i);
      var item := recentlyWatched[i];
      var userData := UserDataOf(item, user);
      if userData.None? {
        continue;
      }
      watchData := watchData + [WatchRecord(item, userData.value)];
      var rating := RatingRecord(item, userData.value, clock.now);
      if rating.Some? {
        ratings := ratings + [rating.value];
      }
    }
    assert recentlyWatched[..|recentlyWatched|] == recentlyWatched;
    var payload := UserSyncData(user, watchData, ratings, clock.now);
    ok := accepts(payload);
    events := if ok then [UserEvent("user_synced", user, ItemCount(|watchData|))] else [];
  }

  /** The scoring service accepts the upload of `user`. */
  predicate Accepted(users: seq<Guid>, items: seq<MediaItem>, now: Timestamp, accepts: UserSyncData -> bool, user: Guid) {
    accepts(SyncPayload(users, items, user, now))
  }

  /** Some user's upload is accepted. */
  predicate SomeUserAccepted(users: seq<Guid>, items: seq<MediaItem>, now: Timestamp, accepts: UserSyncData -> bool) {
    exists k :: 0 <= k < |users| && Accepted(users, items, now, accepts, users[k])
  }

  /** Some user among the first `i` has an accepted upload. */
  predicate AcceptedAmongFirst(users: seq<Guid>, items: seq<MediaItem>, now: Timestamp, accepts: UserSyncData -> bool, i: int) {
    exists k :: 0 <= k < i && k < |users| && Accepted(users, items, now, accepts, users[k])
  }

  lemma AcceptedAmongNext(users: seq<Guid>, items: seq<MediaItem>, now: Timestamp, accepts: UserSyncData -> bool, i: int)
    requires 0 <= i < |users|
    ensures AcceptedAmongFirst(users, items, now, accepts, i + 1) <==>
              AcceptedAmongFirst(users, items, now, accepts, i) || Accepted(users, items, now, accepts, users[i])
  {
  }

  /** The event SyncUserAsync sends for an accepted upload of `user`. */
  function Synced(users: seq<Guid>, items: seq<MediaItem>, now: Timestamp, user: Guid): Event {
    UserEvent("user_synced", user, ItemCount(|SyncPayload(users, items, user, now).watchHistory|))
  }

  /** The events of syncing each of `us` in turn: one per known user whose upload is accepted, in order. */
  function SyncedEvents(users: seq<Guid>, items: seq<MediaItem>, now: Timestamp, accepts: UserSyncData -> bool,
                        us: seq<Guid>): seq<Event>
  {
    if |us| == 0 then []
    else
      var u := us[|us| - 1];
      SyncedEvents(users, items, now, accepts, us[..|us| - 1]) +
      (if u in users && Accepted(users, items, now, accepts, u) then [Synced(users, items, now, u)] else [])
  }

  /** Syncing one more user appends that user's event, if any. */
  lemma SyncedEventsNext(users: seq<Guid>, items: seq<MediaItem>, now: Timestamp, accepts: UserSyncData -> bool,
                         us: seq<Guid>, i: nat)
    requires i < |us|
    ensures SyncedEvents(users, items, now, accepts, us[..i + 1]) ==
            SyncedEvents(users, items, now, accepts, us[..i]) +
            (if us[i] in users && Accepted(users, items, now, accepts, us[i]) then [Synced(users, items, now, us[i])] else [])
  {
    assert us[..i + 1][..i] == us[..i];
  }

  /** Syncing `us` sends at most one event per user, each the "user_synced" event of an accepted known user among `us`. */
  lemma {:induction false} SyncedEventsSound(users: seq<Guid>, items: seq<MediaItem>, now: Timestamp,
                                             accepts: UserSyncData -> bool, us: seq<Guid>)
    ensures var events := SyncedEvents(users, items, now, accepts, us);
            && |events| <= |us|
            && forall e :: e in events ==>
                 exists u :: u in us && u in users && Accepted(users, items, now, accepts, u) && e == Synced(users, items, now, u)
  {
    if |us| > 0 {
      var init, u := us[..|us| - 1], us[|us| - 1];
      SyncedEventsSound(users, items, now, accepts, init);
      forall v | v in init
        ensures v in us
      {
      }
    }
  }

  /** Syncing `us` sends the event of every known user among `us` whose upload is accepted. */
  lemma {:induction false} SyncedEventsComplete(users: seq<Guid>, items: seq<MediaItem>, now: Timestamp,
                                                accepts: UserSyncData -> bool, us: seq<Guid>)
    ensures forall u :: u in us && u in users && Accepted(users, items, now, accepts, u) ==>
              Synced(users, items, now, u) in SyncedEvents(users, items, now, accepts, us)
  {
    if |us| > 0 {
      var init, last := us[..|us| - 1], us[|us| - 1];
      SyncedEventsComplete(users, items, now, accepts, init);
      forall v | v in us
        ensures v in init || v == last
      {
        assert us == init + [last];
      }
    }
  }

  /**
   * SyncAllUsersAsync: every user is synced in turn, and the events are those
   * of each user's sync, in user order; true iff at least one user's sync
   * succeeded.
   */
  method SyncAllUsers(lib: Library, clock: Clock, accepts: UserSyncData -> bool) returns (ok: bool, events: seq<Event>)
    ensures ok <==> SomeUserAccepted(lib.users, lib.items, clock.now, accepts)
    ensures events == SyncedEvents(lib.users, lib.items, clock.now, accepts, lib.users)
    ensures forall e :: e in events ==> e.UserEvent? && e.eventType == "user_synced" && e.userId in lib.users
  {
    var users, items := lib.users, lib.items;
    var successCount := 0;
    events := [];
    for i := 0 to |users|
      invariant successCount > 0 <==> AcceptedAmongFirst(users, items, clock.now, accepts, i)
      invariant events == SyncedEvents(users, items, clock.now, accepts, users[..i])
    {
      SyncedEventsNext(users, items, clock.now, accepts, users, i);
      var success, sent := SyncUser(lib, users[i], clock, accepts);
      AcceptedAmongNext(users, items, clock.now, accepts, i);
      events := events + sent;
      if success {
        successCount := successCount + 1;
      }
    }
    ok := successCount > 0;
    assert users[..|users|] == users;
    SyncedEventsSound(users, items, clock.now, accepts, users);
  }

  /** The metadata record of one library item. */
  function Metadata(item: MediaItem): ContentMetadata {
    ContentMetadata(item.id, item.name, item.itemType, GetTmdbId(item), GetTvdbId(item),
                    ProviderId(item, "Imdb"), item.genres, item.communityRating)
  }

  /** The content library: every media item with a TMDB id, in library order. */
  function ContentLibrary(items: seq<MediaItem>): (r: seq<MediaItem>)
    ensures forall it :: it in r <==> it in items && HasTmdb(it)
  {
    Filter(items, HasTmdb)
  }

  /** The items of `content` whose metadata the scoring service accepts, as "content_synced" events. */
  function ContentEvents(content: seq<MediaItem>, accepts: ContentMetadata -> bool): seq<Event> {
    if |content| == 0 then []
    else
      var last := content[|content| - 1];
      ContentEvents(content[..|content| - 1], accepts) +
        (if accepts(Metadata(last)) then [ContentEvent("content_synced", last.id)] else [])
  }

  /** One event per accepted item, and an event only for an accepted item of the content. */
  lemma {:induction false} ContentEventsSound(content: seq<MediaItem>, accepts: ContentMetadata -> bool)
    ensures |ContentEvents(content, accepts)| <= |content|
    ensures |ContentEvents(content, accepts)| > 0 <==> exists it :: it in content && accepts(Metadata(it))
    ensures forall e :: e in ContentEvents(content, accepts) ==>
              e.ContentEvent? && e.eventType == "content_synced" &&
              exists it :: it in content && it.id == e.itemId && accepts(Metadata(it))
  {
    if |content| > 0 {
      var init := content[..|content| - 1];
      var last := content[|content| - 1];
      ContentEventsSound(init, accepts);
      assert content == init + [last];
    }
  }

  /** The upload loop of SyncContentLibraryAsync: each item's metadata is sent, each accepted one announced. */
  method UploadContent(content: seq<MediaItem>, accepts: ContentMetadata -> bool) returns (ok: bool, events: seq<Event>)
    ensures events == ContentEvents(content, accepts)
    ensures ok <==> exists it :: it in content && accepts(Metadata(it))
  {
    var syncedCount := 0;
    events := [];
    for i := 0 to |content|
      invariant events == ContentEvents(content[..i], accepts)
      invariant syncedCount == |events|
    {
      var item := content[i];
      assert content[..i + 1][..i] == content[..i];
      if accepts(Metadata(item)) {
        syncedCount := syncedCount + 1;
        events := events + [ContentEvent("content_synced", item.id)];
      }
    }
    assert content[..|content|] == content;
    ContentEventsSound(content, accepts);
    ok := syncedCount > 0;
  }

  /**
   * SyncContentLibraryAsync as written: the library is fetched as seen by
   * the user Guid.Empty, which is no user, so nothing is uploaded and the
   * result is always false.
   */
  method SyncContentLibraryAsWritten(lib: Library, accepts: ContentMetadata -> bool) returns (ok: bool, events: seq<Event>)
    requires lib.Valid()
    ensures !ok && events == []
  {
    var allContent := UserLibrary(lib.users, lib.items, EmptyGuid);
    ok, events := UploadContent(allContent, accepts);
  }

  /**
   * The discrepancy: with a single accepted item with a TMDB id, the
   * library as the empty Guid sees it yields no event, the content library
   * one at least.
   */
  lemma ContentSyncDiscrepancy(users: seq<Guid>, items: seq<MediaItem>, accepts: ContentMetadata -> bool, it: MediaItem)
    requires EmptyGuid !in users
    requires it in items && HasTmdb(it) && accepts(Metadata(it))
    ensures ContentEvents(UserLibrary(users, items, EmptyGuid), accepts) == []
    ensures |ContentEvents(ContentLibrary(items), accepts)| > 0
  {
    ContentEventsSound(ContentLibrary(items), accepts);
  }

  /**
   * SyncContentLibraryAsync as evidently intended: every item of the content
   * library is uploaded in turn, each accepted one announced; true iff some
   * upload was accepted.
   */
  method SyncContentLibrary(lib: Library, accepts: ContentMetadata -> bool) returns (ok: bool, events: seq<Event>)
    ensures events == ContentEvents(ContentLibrary(lib.items), accepts)
    ensures ok <==> exists it :: it in lib.items && HasTmdb(it) && accepts(Metadata(it))
  {
    var allContent := ContentLibrary(lib.items);
    ok, events := UploadContent(allContent, accepts);
  }

  /** GetLastSyncTimeAsync: the stored time; none without a configuration. */
  method GetLastSyncTime(plugin: Plugin) returns (t: Option<Timestamp>)
    ensures t == StoredSyncTime(plugin.configuration)
    ensures plugin.configuration.None? ==> t.None?
  {
    t := if plugin.configuration.Some? then plugin.configuration.value.lastSyncTime else None;
  }

  /**
   * UpdateLastSyncTimeAsync: with a configuration, its last sync time becomes
   * now and the configuration is saved; the save's failure, if any, is
   * returned (it propagates to the caller). Without one nothing happens.
   */
  method UpdateLastSyncTime(plugin: Plugin, clock: Clock, saveError: Option<string>) returns (thrown: Option<string>)
    modifies plugin
    ensures old(plugin.configuration).None? ==> plugin.configuration == old(plugin.configuration) && thrown.None?
    ensures old(plugin.configuration).Some? ==>
              plugin.configuration == Some(old(plugin.configuration).value.(lastSyncTime := Some(clock.now))) &&
              thrown == saveError
    ensures plugin.configuration == Stamped(old(plugin.configuration), clock.now)
  {
    if plugin.configuration.Some? {
      plugin.configuration := Some(plugin.configuration.value.(lastSyncTime := Some(clock.now)));
      return saveError;
    }
    return None;
  }
}
