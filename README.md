# Emby recommendation plugin: a verified model of its services

This project models in Dafny the server-side core of a recommendation plugin for the Emby media server. It covers five parts:

- **The recommendation service.** It asks an external scoring service for scored candidates for a user. It classifies the candidates into categories, keeps categories with at least three candidates ordered by mean score, and turns each into an "AI Recommendations: …" collection. It then trims the user's collections to a configured maximum.
- **The collection service.** It lists, finds (ignoring case), creates or refreshes, updates, deletes and cleans up the plugin's collections. It resolves candidates to library items by internal id, then by TMDB id, then by name.
- **The home-screen service.** It builds four rows: recommended, trending, similar to favourites and new releases. Each row comes from resolved candidates, and the first three fall back to rows built from the library alone: favourite genres, highly rated items, or the first items of the library.
- **The sync service.** It uploads each user's recent watch history and ratings, and the content library's metadata, to the scoring service. It announces every accepted upload on the message bus and stores the time of the last sync.
- **The sync controller.** This is the administrator's HTTP API: full, user and content sync, and a connection test.

The Emby server is the class `Library.Library`. It holds the users, the media items in scan order, the collections, and the order in which collections are enumerated. The plugin's stored configuration is the class `Settings.Plugin`.

Outside calls become parameters:

- the scoring service's answers and its verdict on each upload;
- the clock (one instant per call, with its "MMM dd" and "yyyy-MM-dd HH:mm" renderings);
- the failure of saving the configuration.

Message-bus events are returned in the order they are sent.

Files:

- `wrappers.dfy`: Option.
- `sequences.dfy`: the LINQ operators used: Where, Take, Skip, Distinct, FirstOrDefault, stable OrderByDescending, and a filtering map.
- `text.dfy`: lower-casing, substring search, and `int.TryParse` and `ToString` on 32-bit integers.
- `entities.dfy`: the records.
- `library.dfy`: the server.
- `settings.dfy`: the configuration.
- `resolution.dfy`: candidate-to-item resolution.
- `classifier.dfy`: categories, grouping and collection names.
- `collections.dfy`, `recommendation.dfy`, `homescreen.dfy`, `sync.dfy`, `controller.dfy`: one per service.

## Model

| member | source | states |
|---|---|---|
| Library.RecentlyWatched | Services/EmbyDataService.cs:110-135 | The user's played items with a TMDB id, in the library, most recently played first, at most `limit`; a played item is left out only when `limit` items played no earlier fill the answer; none for an unknown user |
| Library.UserLibrary | Services/EmbyDataService.cs:45-76 | An unknown user sees no items; a known user sees exactly the items with a TMDB id |
| Library.Library.CreateCollection | Services/CollectionService.cs:79-87 | A created collection gets a fresh id that no collection or media item carries, is stored under it and is enumerated last; nothing else changes |
| Library.Library.UpdateCollection | Services/CollectionService.cs:130-135 | Only the collection's record changes |
| Library.Library.DeleteItem | Services/CollectionService.cs:153-164 | The collection, or every media item, carrying the id is removed, and its place in the enumeration order with it |
| Text.ParseRendersRoundTrip | Services/SyncService.cs:229-233 | Parsing the decimal rendering of any 32-bit integer gives it back |
| Text.RenderingInjective | Services/CollectionService.cs:271-273 | Two 32-bit integers with the same decimal rendering are equal, so comparing rendered TMDB ids compares the ids |
| Resolution.ResolveOne | Services/CollectionService.cs:247-312 | A resolved id always names an item (media item or collection) of the library |
| Resolution.ResolutionPrecedence | Services/CollectionService.cs:251-311 | A known internal id wins; otherwise the first item whose TMDB provider id renders the candidate's id; otherwise the first item of the restricted type whose name equals the candidate's ignoring case; unresolved exactly when no step applies |
| Resolution.InternalIdWins | Services/HomeScreenService.cs:193-197 | Two candidates with the same known internal id resolve to it whatever their TMDB ids and names |
| Resolution.ResolvedIdsSound | Services/CollectionService.cs:243-322 | The resolved ids are distinct, name library items, are exactly the ids some candidate resolves to, and are empty exactly when no candidate resolves |
| Resolution.ResolveItemIds | Services/HomeScreenService.cs:183-258 | The loop over the candidates returns the distinct resolved ids in first-resolution order |
| Classifier.Category | Services/RecommendationService.cs:192-210 | Always one of the six labels; "For You" exactly when no keyword of the five rules occurs in the lower-cased reason (or, for the genre rule, the lower-cased first tag) |
| Classifier.TagsOnlyDecideGenre | Services/RecommendationService.cs:195-201 | Two candidates with the same reason differ in category only when one of them is a genre recommendation |
| Classifier.SimilarRuleFirst | Services/RecommendationService.cs:198-199 | A reason mentioning "similar" or "like" gives "Similar Content" whatever else it or the tags say |
| Classifier.Keys | Services/RecommendationService.cs:186-187 | The grouping keys are the categories that occur, each once |
| Classifier.AllGroups | Services/RecommendationService.cs:186-187 | One group per occurring category, no group twice |
| Classifier.GroupingSound | Services/RecommendationService.cs:184-190 | Every kept group has at least three members, exactly its category's candidates in input order; groups come in non-increasing mean-score order with distinct categories; every category with three or more candidates is kept |
| Classifier.CollectionNamesDistinct | Services/RecommendationService.cs:217-225 | Distinct categories give distinct names on the same day |
| Collections.Listing | Services/CollectionService.cs:176-198 | Exactly the collections whose name starts with "AI Recommendations: ", most recently modified first; none for an unknown user |
| Collections.ListingNoDuplicates | Services/CollectionService.cs:183-189 | The listing names each collection once |
| Collections.Find | Services/CollectionService.cs:229-241 | The first listed collection whose name equals the wanted one ignoring case; none exactly when no listed collection matches |
| Collections.FindIgnoresCase | Services/CollectionService.cs:234 | Names equal ignoring case find the same collection |
| Collections.FoundOnceStored | Services/CollectionService.cs:60-68 | A stored collection of the plugin's whose name matches is found, so creating it again takes the refresh path |
| Collections.FoundAfterRefresh | Services/CollectionService.cs:130-135 | A refreshed collection keeps its name and stays findable |
| Collections.UpdateCollection | Services/CollectionService.cs:112-147 | Succeeds exactly when the collection exists and some candidate resolves; then only its overview and modification time change; otherwise nothing changes |
| Collections.DeleteCollection | Services/CollectionService.cs:149-174 | Succeeds exactly when some item carries the id, and removes it (a collection also from the enumeration order); otherwise nothing changes |
| Collections.DeleteEach | Services/CollectionService.cs:212-215 | Deleting each doomed collection in turn removes exactly those collections, from the store and from the enumeration order |
| Collections.Cleanup | Services/CollectionService.cs:200-227 | Removes the listed collections past the first `maxCollections`, from the store and the enumeration order, and nothing else; always reports success |
| Collections.CleanupKeepsFirst | Services/CollectionService.cs:204-215 | After the cleanup the listing holds exactly the first `maxCollections` entries of the one before |
| Collections.CleanupKeepsNewest | Services/CollectionService.cs:189-205 | Every kept collection was modified no earlier than every deleted one |
| Collections.CleanupSparesOthers | Services/CollectionService.cs:188-215 | Collections that are not the plugin's are never removed |
| Collections.CleanupBound | Services/CollectionService.cs:205 | At most max(0, `maxCollections`) of the plugin's collections remain |
| Collections.CreateCollection | Services/CollectionService.cs:49-110 | The returned collection and the collections afterwards are exactly those of the specification function Collections.Create |
| Collections.RefreshExisting | Services/CollectionService.cs:63-69 | The found collection's overview and modification time are refreshed when some candidate resolves, every other record, the enumeration order and the id counter are unchanged (Collections.Refreshed) |
| Collections.AddCollection | Services/CollectionService.cs:78-87 | The new collection takes the next id and holds the prefixed name, the generated overview, the current time and no items; it is enumerated last; no other record changes |
| Collections.RefreshedKeeps | Services/CollectionService.cs:63-69 | A refresh keeps the set of collections, every name, the enumeration order and the id counter, and changes no record but the refreshed one |
| Collections.CreateKeeps | Services/CollectionService.cs:49-110 | A create keeps every collection and its name and changes no record but the one it returns; when it returns none, nothing changes |
| Collections.CreateReturns | Services/CollectionService.cs:53-76 | A create returns none exactly for an unknown user or, when no listed collection carries the prefixed name, when no candidate resolves; what it returns is one of the plugin's collections, named as asked ignoring case |
| Collections.CreatePlacement | Services/CollectionService.cs:63-87 | A found collection keeps the enumeration order and the id counter; a new one takes the next id and is enumerated last |
| Recommendations.Attempted | Services/RecommendationService.cs:146-148 | The attempted groups are the first groups, exactly min(#groups, max(0, maximum)) of them |
| Recommendations.CreateEach | Services/RecommendationService.cs:148-167 | The loop's events and the collections afterwards are exactly those of Recommendations.CreateAll: one create per attempted group, in order, on the collections the earlier creates left, and one "collection_created" event per returned collection |
| Recommendations.CreateAllKeeps | Services/RecommendationService.cs:148-167 | A pass of creates loses and renames no collection; an unknown user's pass sends nothing and changes nothing |
| Recommendations.CreateAllAnnounces | Services/RecommendationService.cs:148-167 | A pass sends at most one event per group, each naming one of the groups under the day's collection name |
| Recommendations.CreateKeepsNamed | Services/RecommendationService.cs:152-163 | One more create keeps every earlier announcement true and makes its own true |
| Recommendations.CreateAllNamed | Services/RecommendationService.cs:148-167 | Every announced collection is, after the pass, one of the plugin's collections carrying the announced name ignoring case |
| Recommendations.CreateRecommendationCollections | Services/RecommendationService.cs:135-182 | No configuration: nothing changes and the result is false. Otherwise the events and the collections afterwards are those of Recommendations.Collect (the creates for the attempted groups, then the cleanup of the listing), success exactly when an event was sent, and at most the configured maximum of the user's collections remains |
| Recommendations.CreateCollectionsAnnounced | Services/RecommendationService.cs:146-167 | At most min(#groups, maximum) announcements, each naming an attempted group and a collection that carries the name before the cleanup; none for an unknown user |
| Recommendations.CollectAnnounces | Services/RecommendationService.cs:146-167 | The collection pass sends only "collection_created" events |
| Recommendations.CollectionsStep | Services/RecommendationService.cs:60-64 | Collections are made only when auto-creation is on, and then as Recommendations.Collect says |
| Recommendations.GenerateOneSkips | Services/RecommendationService.cs:44-58 | The per-user pass of an unknown user or an empty answer sends nothing and changes nothing; without auto-creation no pass touches the collections |
| Recommendations.GenerateOneEvents | Services/RecommendationService.cs:60-69 | For a known user with a non-empty answer the pass ends with that user's "recommendations_generated" event carrying the answer's size, and every event before it is a "collection_created" |
| Recommendations.GenerateOneOnlyAnswered | Services/RecommendationService.cs:60-69 | The only "recommendations_generated" event a pass sends is the one for its own user and answer, and only for a known user with a non-empty answer |
| Recommendations.GenerateForUser | Services/RecommendationService.cs:40-79 | True exactly for a known user with a non-empty answer; then "recommendations_generated" with the answer's size is the last event, preceded by the events of the collection pass when auto-creation is on; collections change only then, as Recommendations.Collect says; events and collections afterwards are exactly Recommendations.GenerateOne's |
| Recommendations.GenerateAllKeeps | Services/RecommendationService.cs:81-114 | Without auto-creation the passes over all users leave the collections as they were |
| Recommendations.GenerateAllAnnounces | Services/RecommendationService.cs:91-105 | Every known user with a non-empty answer gets their "recommendations_generated" event with the answer's size |
| Recommendations.GenerateAllOnlyAnswered | Services/RecommendationService.cs:91-105 | Every "recommendations_generated" event is that of a visited known user with a non-empty answer, carrying that answer's size |
| Recommendations.GenerateForAllUsers | Services/RecommendationService.cs:81-114 | Every user is visited in order: the events and the collections afterwards are exactly those of Recommendations.GenerateAll, the per-user passes one after the other, each on the collections the previous left; true exactly when some user has a non-empty answer; every such user gets their "recommendations_generated" event with the answer's size; collections change only when auto-creation is on |
| HomeScreen.GenresMembers | Services/HomeScreenService.cs:390-398 | The genre occurrences are exactly the genres of the favourite items |
| HomeScreen.TallyCounts | Services/HomeScreenService.cs:389-399 | The tally has exactly the occurring genres as keys, each mapped to its number of occurrences |
| HomeScreen.Rank | Services/HomeScreenService.cs:401-403 | At most five genres |
| HomeScreen.RankSound | Services/HomeScreenService.cs:401-403 | The ranked genres are distinct and all occur |
| HomeScreen.RankOrdered | Services/HomeScreenService.cs:401 | The ranked genres come in non-increasing order of occurrence count |
| HomeScreen.RankKeepsMostFrequent | Services/HomeScreenService.cs:401-402 | An occurring genre is left out only when five genres are kept, each occurring at least as often as it |
| HomeScreen.TopGenres | Services/HomeScreenService.cs:375-410 | At most five distinct genres of the favourites among the user's 50 most recently watched items, most frequent first; an occurring genre is left out only for five at least as frequent; none for an unknown user |
| HomeScreen.CountItemGenres | Services/HomeScreenService.cs:394-397 | Counting one item's genres extends the tally and the key order by exactly those occurrences |
| HomeScreen.CountGenres | Services/HomeScreenService.cs:389-399 | The counting loop yields the tally of all favourite genres and the genres in first-occurrence order |
| HomeScreen.FavoriteGenres | Services/HomeScreenService.cs:375-410 | The loop computes the ranked favourite genres of the specification function |
| HomeScreen.Query | Services/HomeScreenService.cs:278-286 | A limited library query returns library items that pass its filter, no more than its limit |
| HomeScreen.GenrePicks | Services/HomeScreenService.cs:275-288 | At most `limit` items, each unwatched, in the library and of one of the top three favourite genres |
| HomeScreen.RatedPicks | Services/HomeScreenService.cs:290-303 | Each item is unwatched, in the library and rated at least 7 |
| HomeScreen.TopUpSound | Services/HomeScreenService.cs:291-309 | Topping up keeps the first list as a prefix, draws only from the two lists and stays within the limit |
| HomeScreen.EmbyRecommendationsSound | Services/HomeScreenService.cs:262-316 | At most `limit` items, none for an unknown user; each unwatched, in the library, and of a top-three favourite genre or rated at least 7 |
| HomeScreen.EmbyGenrePicksFirst | Services/HomeScreenService.cs:276-303 | The genre picks come first; rated picks only fill the rest |
| HomeScreen.RecentlyAdded | Services/HomeScreenService.cs:318-340 | Exactly the unwatched items among the first `limit` of the library; none for an unknown user |
| HomeScreen.GenreBased | Services/HomeScreenService.cs:342-373 | At most `limit` unwatched library items of the top two genres rated at least 6; the recently added row when there is no favourite genre; none for an unknown user |
| HomeScreen.AnswerRowSound | Services/HomeScreenService.cs:65-70 | A row made from resolved candidates has distinct ids of library items, at most `limit` |
| HomeScreen.GetRecommendedItemsForHomeScreen | Services/HomeScreenService.cs:46-83 | The fallback row when fallback is forced or nothing resolves, otherwise the first `limit` resolved ids; always at most `limit` ids of library items |
| HomeScreen.GetTrendingItems | Services/HomeScreenService.cs:85-122 | The first `limit` resolved trending candidates, or the recently added row when fallback is forced or none resolves; at most `limit` library items |
| HomeScreen.GetSimilarToFavorites | Services/HomeScreenService.cs:124-161 | The first `limit` resolved "similar/like/favorite" candidates, or the genre-based row; at most `limit` library items |
| HomeScreen.GetNewReleases | Services/HomeScreenService.cs:163-181 | The first `limit` resolved new-release candidates, no fallback; distinct library items each resolved from a new-release candidate |
| Sync.TmdbIdRoundTrip | Services/SyncService.cs:229-233 | The TMDB id the resolution step matches is the one GetTmdbId reads back |
| Sync.WatchHistoryComplete | Services/SyncService.cs:96-115 | When every watched item has play data, there is one watch record per item, in recency order |
| Sync.RatingsMatchHistory | Services/SyncService.cs:115-125 | Every rating belongs to a record of the same item with that rating; every rated record has its rating, dated by the last play or else by the sync time |
| Sync.SyncPayloadSound | Services/SyncService.cs:89-135 | The upload carries the user, the sync time and one record per recently watched item (at most 500), each a played library item with a TMDB id; empty for an unknown user |
| Sync.SyncUser | Services/SyncService.cs:76-152 | True exactly for a known user whose upload is accepted; then one "user_synced" event with the number of records |
| Sync.SyncedEventsSound | Services/SyncService.cs:51-62 | At most one event per user, each the "user_synced" event of a known user among them whose upload is accepted |
| Sync.SyncedEventsComplete | Services/SyncService.cs:51-62 | Every known user among them whose upload is accepted gets their "user_synced" event |
| Sync.SyncAllUsers | Services/SyncService.cs:41-74 | Every user is visited: the events are exactly Sync.SyncedEvents, the "user_synced" event of each accepted user in user order; true exactly when some user's upload is accepted |
| Sync.ContentLibrary | Services/SyncService.cs:160-161 | The content library is exactly the items with a TMDB id |
| Sync.ContentEventsSound | Services/SyncService.cs:164-200 | At most one event per item; some event exactly when some item is accepted; each "content_synced" event names an accepted item |
| Sync.UploadContent | Services/SyncService.cs:162-203 | The upload loop sends the events of the accepted items in order, and succeeds exactly when one was accepted |
| Sync.SyncContentLibraryAsWritten | Services/SyncService.cs:154-210 | As written, the content sync never succeeds and sends nothing |
| Sync.ContentSyncDiscrepancy | Services/SyncService.cs:161 | With one accepted item with a TMDB id, the as-written library gives no event while the content library gives one |
| Sync.SyncContentLibrary | Services/SyncService.cs:154-210 | Corrected: the events of the accepted items of the content library; true exactly when some such item is accepted |
| Sync.GetLastSyncTime | Services/SyncService.cs:212-216 | The stored sync time; none without a configuration |
| Sync.UpdateLastSyncTime | Services/SyncService.cs:218-227 | With a configuration its sync time becomes now, every other setting is kept, and the save's failure is reported; without one nothing changes |
| Settings.Stamped | Services/SyncService.cs:220-224 | Stamping a configuration sets its sync time and keeps every other setting; an absent configuration stays absent |
| Controller.CompletedMessageReports | Api/SyncController.cs:52 | Two completion messages are equal exactly when both legs' outcomes are |
| Controller.PostSync | Api/SyncController.cs:31-74 | Success exactly when a leg succeeded and the save did not fail; the message and time reported for each of the three outcomes; after a successful leg the configuration is the old one with the sync time set to now, otherwise it is unchanged; the events are the "user_synced" event of each accepted user in user order, then the content leg's |
| Controller.PostSyncUsers | Api/SyncController.cs:76-113 | The same for the user leg alone; the events are the "user_synced" event of each accepted user in user order |
| Controller.PostSyncContent | Api/SyncController.cs:115-152 | The same for the (corrected) content leg alone, whose events are those of the accepted content |
| Controller.TestConnection | Api/SyncController.cs:154-177 | Success is the health check's verdict, with "Connection successful" exactly on success and "Connection failed" exactly on failure |

## Left out

- The message bus: the model does not have the Kafka producer, the HTTP client to the scoring service, or the session event handler. Their calls are parameters, or returned events.
- Concurrency and async: every `await` is a sequential step.
- Exceptions: the model has no exceptions inside the services. Each service catches its own and returns its failure value, and the lookups the model uses cannot fail. The one failure that escapes is the configuration save inside UpdateLastSyncTimeAsync, which is the parameter `saveError`.
- A tag list holding a null element. The trending filter (Services/HomeScreenService.cs:104) would throw on it; the category rule (Services/RecommendationService.cs:196) reads a null first tag as "". Null strings and lists are modelled as empty, as the code treats them elsewhere.
- Case folding covers ASCII letters only. Culture-specific and Unicode rules are not modelled.
- Library queries with a `Limit` return items in scan order. Emby's own default ordering, user visibility and parental rules are not modelled.
- HomeScreen.RecentlyAdded: like the code, it sorts nothing, so it returns the first items of the scan, not the newest.
- Fetched values the code never uses are not modelled: the `recentlyWatched` list of the Emby fallback (10 items), the user library of SyncUserAsync, and the item count in GenerateCollectionName.
- HomeScreen.EmbyRecommendations: items found by both strategies are not removed when duplicated, as in the code.
- Collections.AddCollection: the new collection's DateModified is taken to be the call's instant. The code leaves it to the server's CreateItem (Services/CollectionService.cs:79-87); it decides the cleanup order.
- Controller.PostSync: the content leg is the corrected one (Sync.SyncContentLibrary). As written the content leg never succeeds, so the code answers as if content failed; see Findings.
- Controller.PostSyncContent: the same corrected content leg; as written it always answers "Content sync failed".
- AddItemToCollectionAsync is an empty placeholder, so new collections hold no items.
- A record's extra metadata fields, and the user name in the user upload, are left out. The model keeps the premiere date, tags, studios, overview and the other ContentMetadata fields out; none of them decides anything.
- The public overload CreateRecommendationCollectionsAsync(userId) and GetRecommendationsAsync only fetch the scoring service's answer. That answer is a parameter of Recommendations.CreateRecommendationCollections.
- Negative limits behave as LINQ's Take does (nothing). The `limit * 2` of a query is computed on unbounded integers; 32-bit overflow is not modelled.
- The request count passed to the scoring service (20, `limit` or 50) is not modelled: the answer is a parameter.
- Times are natural numbers. The DateTime formats "MMM dd" and "yyyy-MM-dd HH:mm" are opaque strings of the clock.
- Scheduled tasks, the plugin entry point, the configuration page and EmbyDataService's session listing are not part of this model.

## Findings

| source | as written | input that shows it | evidently intended | confidence | as-written member | corrected member |
|---|---|---|---|---|---|---|
| Services/SyncService.cs:161 | The content library is fetched with `GetUserLibraryAsync(Guid.Empty)`. No user has the empty id, so the lookup returns an empty library (Services/EmbyDataService.cs:49-54), nothing is uploaded and the sync always reports failure | A library with one movie that has a TMDB id, and a scoring service that accepts its metadata: no "content_synced" event, result false | Upload every library item with a TMDB id, as the comment on line 160 says | not executed | Sync.SyncContentLibraryAsWritten, Sync.ContentSyncDiscrepancy | Sync.SyncContentLibrary |
