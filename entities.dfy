/**
 * The records the plugin exchanges with the media server and the scoring
 * service (Models/SyncModels.cs), and the server-side entities it reads:
 * media items with their per-user play data, and collections (BoxSets).
 */
module Entities {
  import opened Wrappers
  import opened Text

  /** A Guid; 0 stands for Guid.Empty. */
  type Guid = nat
  const EmptyGuid: Guid := 0

  /** An instant of DateTime (its tick count), opaque apart from its order. */
  type Timestamp = nat

  /**
   * What DateTime.Now / DateTime.UtcNow yield during one call: the instant,
   * and its two renderings the services embed in text ("MMM dd" and
   * "yyyy-MM-dd HH:mm"), taken as opaque strings.
   */
  datatype Clock = Clock(now: Timestamp, day: string, minute: string)

  /** One scored candidate from the scoring service. A null string or list is modelled as empty. */
  datatype RecommendationResult = RecommendationResult(
    itemId: Guid,
    itemName: string,
    itemType: string,
    tmdbId: Option<Int32>,
    score: real,
    reason: string,
    tags: seq<string>)

  /** A user's play data for one item. */
  datatype UserItemData = UserItemData(
    played: bool,
    playCount: int,
    isFavorite: bool,
    rating: Option<real>,
    playbackPositionTicks: Option<int>,
    lastPlayedDate: Option<Timestamp>)

  /**
   * A media item of the library (not a folder). `userData` holds each user's
   * play record; a user without an entry has no record (the server returns null).
   */
  datatype MediaItem = MediaItem(
    id: Guid,
    name: string,
    itemType: string,
    providerIds: map<string, string>,
    genres: seq<string>,
    communityRating: Option<real>,
    userData: map<Guid, UserItemData>)

  /** A collection. `members` is what the server records as its children. */
  datatype BoxSet = BoxSet(name: string, overview: string, dateModified: Timestamp, members: set<Guid>)

  datatype UserWatchData = UserWatchData(
    itemId: Guid,
    itemName: string,
    itemType: string,
    tmdbId: Option<Int32>,
    tvdbId: Option<Int32>,
    lastPlayedDate: Option<Timestamp>,
    playbackPositionTicks: Option<int>,
    playCount: int,
    isFavorite: bool,
    userRating: Option<real>)

  datatype UserRating = UserRating(itemId: Guid, rating: real, ratedAt: Timestamp)

  datatype UserSyncData = UserSyncData(
    userId: Guid,
    watchHistory: seq<UserWatchData>,
    ratings: seq<UserRating>,
    lastSyncTime: Timestamp)

  datatype ContentMetadata = ContentMetadata(
    itemId: Guid,
    name: string,
    itemType: string,
    tmdbId: Option<Int32>,
    tvdbId: Option<Int32>,
    imdbId: Option<string>,
    genres: seq<string>,
    communityRating: Option<real>)

  /** The data carried by an event sent to the message bus. */
  datatype Payload =
    | ItemCount(itemCount: nat)
    | RecommendationCount(count: nat)
    | CollectionCreated(collectionId: Guid, collectionName: string)
    | NoData

  /** An event handed to the message bus (SendUserEventAsync / SendContentEventAsync). */
  datatype Event =
    | UserEvent(eventType: string, userId: Guid, data: Payload)
    | ContentEvent(eventType: string, itemId: Guid)

  /** The event type under which the bus publishes an event. */
  function Topic(e: Event): string {
    match e
    case UserEvent(t, _, _) => "user_" + t
    case ContentEvent(t, _) => "content_" + t
  }

  /** BaseItem.GetProviderId: the provider id stored under `key`, if any. */
  function ProviderId(item: MediaItem, key: string): Option<string> {
    if key in item.providerIds then Some(item.providerIds[key]) else None
  }

  /** The play record of `user` for `item`, or null. */
  function UserDataOf(item: MediaItem, user: Guid): Option<UserItemData> {
    if user in item.userData then Some(item.userData[user]) else None
  }
}
