/**
 * The administrator's sync endpoints: a full sync (users and content), a
 * user sync, a content sync, and a connection test. Each sync endpoint
 * stores the sync time when its legs succeed and reports the outcome in a
 * response. The only failure that escapes the services is the
 * configuration save inside UpdateLastSyncTimeAsync; its message is a
 * parameter.
 */
module Controller {
  import opened Wrappers
  import opened Entities
  import opened Library
  import opened Settings
  import opened Sync

  datatype SyncResponse = SyncResponse(success: bool, message: string, lastSyncTime: Option<Timestamp>)

  datatype TestConnectionResponse = TestConnectionResponse(success: bool, message: string)

  /** Some item of the content library has its metadata accepted. */
  predicate SomeContentAccepted(items: seq<MediaItem>, accepts: ContentMetadata -> bool) {
    exists it :: it in items && HasTmdb(it) && accepts(Metadata(it))
  }

  function Outcome(success: bool): string {
    if success then "Success" else "Failed"
  }

  /** The message of a full sync with at least one successful leg. */
  function CompletedMessage(userSuccess: bool, contentSuccess: bool): string {
    "Sync completed. Users: " + Outcome(userSuccess) + ", Content: " + Outcome(contentSuccess)
  }

  /** The message tells each leg's outcome: different outcomes give different messages. */
  lemma CompletedMessageReports(u1: bool, c1: bool, u2: bool, c2: bool)
    ensures CompletedMessage(u1, c1) == CompletedMessage(u2, c2) <==> u1 == u2 && c1 == c2
  {
    var head := "Sync completed. Users: ";
    var m1, m2 := CompletedMessage(u1, c1), CompletedMessage(u2, c2);
    if m1 == m2 {
      assert m1[|head|] == m2[|head|];
      assert u1 == u2;
      var at := |head| + |Outcome(u1)| + |", Content: "|;
      assert m1[at] == m2[at];
    }
  }

  /**
   * The full sync (Post of SyncRequest): the user leg, then the content leg;
   * when either succeeds the sync time is stored and the response reports
   * both outcomes, unless saving the configuration fails, in which case the
   * response carries the failure and the time already set in memory; when
   * both fail the stored time is left alone and reported.
   */
  method PostSync(lib: Library, plugin: Plugin, clock: Clock, acceptsUser: UserSyncData -> bool,
                  acceptsContent: ContentMetadata -> bool, saveError: Option<string>)
    returns (response: SyncResponse, events: seq<Event>)
    modifies plugin
    ensures var u := SomeUserAccepted(lib.users, lib.items, clock.now, acceptsUser);
            var c := SomeContentAccepted(lib.items, acceptsContent);
            var saved := old(plugin.configuration).None? || saveError.None?;
            && (response.success <==> (u || c) && saved)
            && ((u || c) && saved ==> response == SyncResponse(true, CompletedMessage(u, c), Some(clock.now)))
            && ((u || c) && !saved ==> response == SyncResponse(false, "Sync error: " + saveError.value, Some(clock.now)))
            && (!(u || c) ==> response == SyncResponse(false, "Sync failed for both users and content", StoredSyncTime(old(plugin.configuration))))
            && (!(u || c) ==> plugin.configuration == old(plugin.configuration))
            && ((u || c) ==> plugin.configuration == Stamped(old(plugin.configuration), clock.now))
    ensures events == SyncedEvents(lib.users, lib.items, clock.now, acceptsUser, lib.users) +
                      ContentEvents(ContentLibrary(lib.items), acceptsContent)
    ensures forall e :: e in events ==>
              (e.UserEvent? && e.eventType == "user_synced") || (e.ContentEvent? && e.eventType == "content_synced")
  {
    var userSuccess, userEvents := SyncAllUsers(lib, clock, acceptsUser);
    var contentSuccess, contentEvents := SyncContentLibrary(lib, acceptsContent);
    ContentEventsSound(ContentLibrary(lib.items), acceptsContent);
    events := userEvents + contentEvents;
    if userSuccess || contentSuccess {
      var thrown := UpdateLastSyncTime(plugin, clock, saveError);
      if thrown.Some? {
        var stored := GetLastSyncTime(plugin);
        return SyncResponse(false, "Sync error: " + thrown.value, stored), events;
      }
      return SyncResponse(true, CompletedMessage(userSuccess, contentSuccess), Some(clock.now)), events;
    }
    var stored := GetLastSyncTime(plugin);
    response := SyncResponse(false, "Sync failed for both users and content", stored);
  }

  /**
   * The user sync (Post of SyncUsersRequest): on success the sync time is
   * stored and reported; on failure the stored time is reported unchanged.
   */
  method PostSyncUsers(lib: Library, plugin: Plugin, clock: Clock, acceptsUser: UserSyncData -> bool,
                       saveError: Option<string>)
    returns (response: SyncResponse, events: seq<Event>)
    modifies plugin
    ensures var u := SomeUserAccepted(lib.users, lib.items, clock.now, acceptsUser);
            var saved := old(plugin.configuration).None? || saveError.None?;
            && (response.success <==> u && saved)
            && (u && saved ==> response == SyncResponse(true, "User sync completed successfully", Some(clock.now)))
            && (u && !saved ==> response == SyncResponse(false, "User sync error: " + saveError.value, Some(clock.now)))
            && (!u ==> response == SyncResponse(false, "User sync failed", StoredSyncTime(old(plugin.configuration))))
            && (!u ==> plugin.configuration == old(plugin.configuration))
            && (u ==> plugin.configuration == Stamped(old(plugin.configuration), clock.now))
    ensures events == SyncedEvents(lib.users, lib.items, clock.now, acceptsUser, lib.users)
    ensures forall e :: e in events ==> e.UserEvent? && e.eventType == "user_synced" && e.userId in lib.users
  {
    var success;
    success, events := SyncAllUsers(lib, clock, acceptsUser);
    if success {
      var thrown := UpdateLastSyncTime(plugin, clock, saveError);
      if thrown.Some? {
        var stored := GetLastSyncTime(plugin);
        return SyncResponse(false, "User sync error: " + thrown.value, stored), events;
      }
      return SyncResponse(true, "User sync completed successfully", Some(clock.now)), events;
    }
    var stored := GetLastSyncTime(plugin);
    response := SyncResponse(false, "User sync failed", stored);
  }

  /**
   * The content sync (Post of SyncContentRequest): on success the sync time
   * is stored and reported; on failure the stored time is reported unchanged.
   */
  method PostSyncContent(lib: Library, plugin: Plugin, clock: Clock, acceptsContent: ContentMetadata -> bool,
                         saveError: Option<string>)
    returns (response: SyncResponse, events: seq<Event>)
    modifies plugin
    ensures var c := SomeContentAccepted(lib.items, acceptsContent);
            var saved := old(plugin.configuration).None? || saveError.None?;
            && (response.success <==> c && saved)
            && (c && saved ==> response == SyncResponse(true, "Content sync completed successfully", Some(clock.now)))
            && (c && !saved ==> response == SyncResponse(false, "Content sync error: " + saveError.value, Some(clock.now)))
            && (!c ==> response == SyncResponse(false, "Content sync failed", StoredSyncTime(old(plugin.configuration))))
            && (!c ==> plugin.configuration == old(plugin.configuration))
            && (c ==> plugin.configuration == Stamped(old(plugin.configuration), clock.now))
    ensures events == ContentEvents(ContentLibrary(lib.items), acceptsContent)
  {
    var success;
    success, events := SyncContentLibrary(lib, acceptsContent);
    if success {
      var thrown := UpdateLastSyncTime(plugin, clock, saveError);
      if thrown.Some? {
        var stored := GetLastSyncTime(plugin);
        return SyncResponse(false, "Content sync error: " + thrown.value, stored), events;
      }
      return SyncResponse(true, "Content sync completed successfully", Some(clock.now)), events;
    }
    var stored := GetLastSyncTime(plugin);
    response := SyncResponse(false, "Content sync failed", stored);
  }

  /** The connection test (Get of TestConnectionRequest): the health check's verdict and its message. */
  function TestConnection(healthy: bool): (r: TestConnectionResponse)
    ensures r.success == healthy
    ensures r.success <==> r.message == "Connection successful"
    ensures !r.success <==> r.message == "Connection failed"
  {
    TestConnectionResponse(healthy, if healthy then "Connection successful" else "Connection failed")
  }
}
