/**
 * The recommendation service's orchestration: turning one user's scored
 * candidates into collections (CreateRecommendationCollectionsAsync), the
 * per-user pass (GenerateRecommendationsForUserAsync) and the pass over all
 * users (GenerateRecommendationsForAllUsersAsync). The scoring service is an
 * oracle: its answer for a user is a parameter. Events handed to the message
 * bus are returned in the order they are sent.
 */
module Recommendations {
  import opened Wrappers
  import opened Entities
  import opened Sequences
  import opened Library
  import opened Settings
  import opened Classifier
  import opened Collections
  import opened Text

  function Min(a: int, b: int): int {
    if a <= b then a else b
  }

  /** The groups a collection is attempted for: the first min(#groups, maximum) of them. */
  function Attempted(recs: seq<RecommendationResult>, maxCollections: int): (gs: seq<Group>)
    ensures |gs| == Min(|GroupRecommendations(recs)|, if maxCollections < 0 then 0 else maxCollections)
    ensures forall i :: 0 <= i < |gs| ==> gs[i] == GroupRecommendations(recs)[i]
  {
    var groups := GroupRecommendations(recs);
    Take(groups, Min(|groups|, maxCollections))
  }

  /** An event announcing a collection created (or refreshed) for one of the attempted groups. */
  predicate AnnouncesGroup(e: Event, user: Guid, attempted: seq<Group>, day: string) {
    && e.UserEvent? && e.eventType == "collection_created" && e.userId == user
    && e.data.CollectionCreated?
    && exists g :: g in attempted && e.data.collectionName == CollectionName(g.key, day)
  }

  /** The announcement of a collection created (or refreshed) under `name`. */
  function Announcement(user: Guid, id: Guid, name: string): Event {
    UserEvent("collection_created", user, CollectionCreated(id, name))
  }

  /** What a pass of creates sends and leaves behind. */
  datatype Pass = Pass(events: seq<Event>, after: Store)

  /**
   * One create per group, in group order, each on the collections the ones
   * before it left, and an announcement for each collection returned.
   */
  function CreateAll(users: seq<Guid>, items: seq<MediaItem>, s: Store, groups: seq<Group>, user: Guid, clock: Clock): Pass
  {
    if |groups| == 0 then Pass([], s)
    else
      var before := CreateAll(users, items, s, groups[..|groups| - 1], user, clock);
      var name := CollectionName(groups[|groups| - 1].key, clock.day);
      var c := Create(users, items, before.after, name, groups[|groups| - 1].members, user, clock);
      if c.collection.Some? then Pass(before.events + [Announcement(user, c.collection.value, name)], c.after)
      else Pass(before.events, c.after)
  }

  /** A pass loses and renames no collection, and an unknown user's changes nothing. */
  lemma {:induction false} CreateAllKeeps(users: seq<Guid>, items: seq<MediaItem>, s: Store, groups: seq<Group>,
                                          user: Guid, clock: Clock)
    requires BelowNext(s)
    ensures var p := CreateAll(users, items, s, groups, user, clock);
            && BelowNext(p.after)
            && (forall id :: id in s.collections ==>
                  id in p.after.collections && p.after.collections[id].name == s.collections[id].name)
            && (user !in users ==> p == Pass([], s))
  {
    if |groups| > 0 {
      var init := groups[..|groups| - 1];
      CreateAllKeeps(users, items, s, init, user, clock);
      var before := CreateAll(users, items, s, init, user, clock);
      var g := groups[|groups| - 1];
      CreateKeeps(users, items, before.after, CollectionName(g.key, clock.day), g.members, user, clock);
      CreateReturns(users, items, before.after, CollectionName(g.key, clock.day), g.members, user, clock);
    }
  }

  /** A pass sends at most one announcement per group, each naming one of the groups. */
  lemma {:induction false} CreateAllAnnounces(users: seq<Guid>, items: seq<MediaItem>, s: Store, groups: seq<Group>,
                                              user: Guid, clock: Clock)
    ensures var p := CreateAll(users, items, s, groups, user, clock);
            && |p.events| <= |groups|
            && (forall e :: e in p.events ==> AnnouncesGroup(e, user, groups, clock.day))
  {
    if |groups| > 0 {
      var init := groups[..|groups| - 1];
      CreateAllAnnounces(users, items, s, init, user, clock);
      var before := CreateAll(users, items, s, init, user, clock);
      var g := groups[|groups| - 1];
      assert g in groups;
      forall e | e in before.events
        ensures AnnouncesGroup(e, user, groups, clock.day)
      {
        var h :| h in init && e.data.collectionName == CollectionName(h.key, clock.day);
        assert h in groups;
      }
    }
  }

  /** Each announced collection is one of the plugin's in `st` and carries the announced name ignoring case. */
  predicate AllNamed(events: seq<Event>, st: Store) {
    forall e :: e in events ==>
      && e.UserEvent? && e.data.CollectionCreated?
      && e.data.collectionId in st.collections
      && IsPrefix(Prefix, st.collections[e.data.collectionId].name)
      && EqualsIgnoreCase(st.collections[e.data.collectionId].name, Prefix + e.data.collectionName)
  }

  /** One more create keeps the earlier announcements true and makes its own true. */
  lemma CreateKeepsNamed(users: seq<Guid>, items: seq<MediaItem>, st: Store, name: string,
                         recs: seq<RecommendationResult>, user: Guid, clock: Clock, events: seq<Event>)
    requires BelowNext(st) && AllNamed(events, st)
    ensures var c := Create(users, items, st, name, recs, user, clock);
            && AllNamed(events, c.after)
            && (c.collection.Some? ==> AllNamed(events + [Announcement(user, c.collection.value, name)], c.after))
  {
    CreateKeeps(users, items, st, name, recs, user, clock);
    CreateReturns(users, items, st, name, recs, user, clock);
  }

  /**
   * Every collection a pass announces is, once the pass is over, one of the
   * plugin's collections and carries the announced name ignoring case.
   */
  lemma {:induction false} CreateAllNamed(users: seq<Guid>, items: seq<MediaItem>, s: Store, groups: seq<Group>,
                                          user: Guid, clock: Clock)
    requires BelowNext(s)
    ensures var p := CreateAll(users, items, s, groups, user, clock);
            AllNamed(p.events, p.after)
  {
    if |groups| > 0 {
      var init := groups[..|groups| - 1];
      CreateAllNamed(users, items, s, init, user, clock);
      CreateAllKeeps(users, items, s, init, user, clock);
      var before := CreateAll(users, items, s, init, user, clock);
      var g := groups[|groups| - 1];
      CreateKeepsNamed(users, items, before.after, CollectionName(g.key, clock.day), g.members, user, clock, before.events);
    }
  }

  /** One create attempt per group, in order, and an announcement for each collection returned. */
  method CreateEach(lib: Library, attempted: seq<Group>, user: Guid, clock: Clock) returns (events: seq<Event>)
    requires lib.Valid()
    modifies lib
    ensures lib.Valid() && lib.users == old(lib.users) && lib.items == old(lib.items)
    ensures Pass(events, lib.State()) == CreateAll(old(lib.users), old(lib.items), old(lib.State()), attempted, user, clock)
  {
    events := [];
    for i := 0 to |attempted|
      invariant lib.Valid() && lib.users == old(lib.users) && lib.items == old(lib.items)
      invariant Pass(events, lib.State()) == CreateAll(lib.users, lib.items, old(lib.State()), attempted[..i], user, clock)
    {
      assert attempted[..i + 1][..i] == attempted[..i];
      var name := CollectionName(attempted[i].key, clock.day);
      var created := CreateCollection(lib, name, attempted[i].members, user, clock);
      if created.Some? {
        events := events + [Announcement(user, created.value, name)];
      }
    }
    assert attempted[..|attempted|] == attempted;
  }

  /**
   * The pass of CreateRecommendationCollectionsAsync with a configuration:
   * the creates for the attempted groups, then the cleanup of the user's
   * listing down to `max`.
   */
  function Collect(users: seq<Guid>, items: seq<MediaItem>, s: Store, recs: seq<RecommendationResult>,
                   max: int, user: Guid, clock: Clock): Pass
  {
    var p := CreateAll(users, items, s, Attempted(recs, max), user, clock);
    var doomed := Doomed(users, p.after.collections, p.after.order, user, max);
    Pass(p.events, Store(p.after.collections - doomed, Filter(p.after.order, Outside(doomed)), p.after.nextId))
  }

  /**
   * CreateRecommendationCollectionsAsync: one create attempt per attempted
   * group, in group order, an event for each collection returned, then one
   * cleanup down to the configured maximum. Succeeds iff some create returned
   * a collection. Without a configuration nothing happens.
   */
  method CreateRecommendationCollections(lib: Library, config: Option<Configuration>, user: Guid,
                                         recs: seq<RecommendationResult>, clock: Clock)
    returns (ok: bool, events: seq<Event>)
    requires lib.Valid()
    modifies lib
    ensures lib.Valid()
    ensures lib.users == old(lib.users)
    ensures config.None? ==>
              !ok && events == [] && lib.collections == old(lib.collections) &&
              lib.items == old(lib.items) && lib.order == old(lib.order)
    ensures ok <==> |events| > 0
    ensures lib.items == old(lib.items)
    ensures config.Some? ==>
              Pass(events, lib.State()) ==
              Collect(old(lib.users), old(lib.items), old(lib.State()), recs, config.value.maxRecommendationCollections, user, clock)
    ensures config.Some? ==>
              |Listing(lib.users, lib.collections, lib.order, user)| <=
              if config.value.maxRecommendationCollections < 0 then 0 else config.value.maxRecommendationCollections
  {
    if config.None? {
      return false, [];
    }
    var maxCollections := config.value.maxRecommendationCollections;
    var attempted := Attempted(recs, maxCollections);
    events := CreateEach(lib, attempted, user, clock);
    ghost var cols, order := lib.collections, lib.order;
    var _ := Cleanup(lib, user, maxCollections);
    CleanupBound(lib.users, cols, order, lib.order, user, maxCollections);
    ok := |events| > 0;
  }

  /**
   * What CreateRecommendationCollectionsAsync promises the caller: at most one
   * announcement per attempted group, each naming an attempted group and a
   * collection that, before the cleanup, carries that name; none for an
   * unknown user.
   */
  lemma CreateCollectionsAnnounced(users: seq<Guid>, items: seq<MediaItem>, s: Store, recs: seq<RecommendationResult>,
                                   max: int, user: Guid, clock: Clock)
    requires BelowNext(s)
    ensures var p := CreateAll(users, items, s, Attempted(recs, max), user, clock);
            && |p.events| <= Min(|GroupRecommendations(recs)|, if max < 0 then 0 else max)
            && (forall e :: e in p.events ==> AnnouncesGroup(e, user, Attempted(recs, max), clock.day))
            && (forall e :: e in p.events ==>
                  e.data.collectionId in p.after.collections &&
                  EqualsIgnoreCase(p.after.collections[e.data.collectionId].name, Prefix + e.data.collectionName))
            && (user !in users ==> p.events == [])
  {
    CreateAllAnnounces(users, items, s, Attempted(recs, max), user, clock);
    CreateAllNamed(users, items, s, Attempted(recs, max), user, clock);
    CreateAllKeeps(users, items, s, Attempted(recs, max), user, clock);
  }

  /** The collection step of the per-user pass: taken only when the configuration asks for it. */
  method CollectionsStep(lib: Library, config: Option<Configuration>, user: Guid,
                         answer: seq<RecommendationResult>, clock: Clock)
    returns (announced: seq<Event>)
    requires lib.Valid()
    modifies lib
    ensures lib.Valid()
    ensures lib.users == old(lib.users) && lib.items == old(lib.items)
    ensures Pass(announced, lib.State()) ==
            if AutoCreate(config)
            then Collect(old(lib.users), old(lib.items), old(lib.State()), answer, config.value.maxRecommendationCollections, user, clock)
            else Pass([], old(lib.State()))
  {
    announced := [];
    if AutoCreate(config) {
      var _, created := CreateRecommendationCollections(lib, config, user, answer, clock);
      announced := created;
    }
  }

  /**
   * The per-user pass on the collections `s`: nothing for an unknown user or
   * an empty answer; otherwise the collection pass when auto-creation is on,
   * then the "recommendations_generated" event.
   */
  function GenerateOne(users: seq<Guid>, items: seq<MediaItem>, s: Store, config: Option<Configuration>, user: Guid,
                       answer: seq<RecommendationResult>, clock: Clock): Pass
  {
    if user !in users || |answer| == 0 then Pass([], s)
    else
      var created := if AutoCreate(config) then Collect(users, items, s, answer, config.value.maxRecommendationCollections, user, clock)
                     else Pass([], s);
      Pass(created.events + [UserEvent("recommendations_generated", user, RecommendationCount(|answer|))], created.after)
  }

  /** The per-user passes for each of `us` in turn, each on the collections the ones before it left. */
  function GenerateAll(users: seq<Guid>, items: seq<MediaItem>, s: Store, config: Option<Configuration>,
                       answers: Guid -> seq<RecommendationResult>, clock: Clock, us: seq<Guid>): Pass
  {
    if |us| == 0 then Pass([], s)
    else
      var before := GenerateAll(users, items, s, config, answers, clock, us[..|us| - 1]);
      var u := us[|us| - 1];
      var step := GenerateOne(users, items, before.after, config, u, answers(u), clock);
      Pass(before.events + step.events, step.after)
  }

  /** The passes over one more user are those before it followed by its own. */
  lemma GenerateAllNext(users: seq<Guid>, items: seq<MediaItem>, s: Store, config: Option<Configuration>,
                        answers: Guid -> seq<RecommendationResult>, clock: Clock, us: seq<Guid>, i: nat)
    requires i < |us|
    ensures var before := GenerateAll(users, items, s, config, answers, clock, us[..i]);
            var step := GenerateOne(users, items, before.after, config, us[i], answers(us[i]), clock);
            GenerateAll(users, items, s, config, answers, clock, us[..i + 1]) == Pass(before.events + step.events, step.after)
  {
    assert us[..i + 1][..i] == us[..i];
  }

  /**
   * One per-user pass sends nothing and changes nothing for an unknown user
   * or an empty answer; without auto-creation it leaves the collections alone.
   */
  lemma GenerateOneSkips(users: seq<Guid>, items: seq<MediaItem>, s: Store, config: Option<Configuration>, user: Guid,
                         answer: seq<RecommendationResult>, clock: Clock)
    ensures var p := GenerateOne(users, items, s, config, user, answer, clock);
            && (!AutoCreate(config) ==> p.after == s)
            && (user !in users || |answer| == 0 ==> p == Pass([], s))
  {
    var p := GenerateOne(users, items, s, config, user, answer, clock);
    if user in users && |answer| > 0 && !AutoCreate(config) {
      assert p == Pass([UserEvent("recommendations_generated", user, RecommendationCount(|answer|))], s);
    }
  }

  /**
   * One per-user pass sends, for a known user with a non-empty answer, only
   * "collection_created" events and then its "recommendations_generated" event.
   */
  lemma GenerateOneEvents(users: seq<Guid>, items: seq<MediaItem>, s: Store, config: Option<Configuration>, user: Guid,
                          answer: seq<RecommendationResult>, clock: Clock)
    ensures var p := GenerateOne(users, items, s, config, user, answer, clock);
            user in users && |answer| > 0 ==>
              && |p.events| > 0
              && p.events[|p.events| - 1] == UserEvent("recommendations_generated", user, RecommendationCount(|answer|))
              && forall e :: e in p.events[..|p.events| - 1] ==> e.UserEvent? && e.eventType == "collection_created"
  {
    var p := GenerateOne(users, items, s, config, user, answer, clock);
    var generated := UserEvent("recommendations_generated", user, RecommendationCount(|answer|));
    if user !in users || |answer| == 0 {
    } else if AutoCreate(config) {
      var created := Collect(users, items, s, answer, config.value.maxRecommendationCollections, user, clock);
      CollectAnnounces(users, items, s, answer, config.value.maxRecommendationCollections, user, clock);
      assert p == Pass(created.events + [generated], created.after);
      assert p.events[..|p.events| - 1] == created.events;
    } else {
      assert p == Pass([generated], s);
    }
  }

  /** The only "recommendations_generated" event of a per-user pass is the one for that user and answer. */
  lemma GenerateOneOnlyAnswered(users: seq<Guid>, items: seq<MediaItem>, s: Store, config: Option<Configuration>, user: Guid,
                                answer: seq<RecommendationResult>, clock: Clock)
    ensures forall e :: e in GenerateOne(users, items, s, config, user, answer, clock).events &&
                        e.UserEvent? && e.eventType == "recommendations_generated" ==>
              user in users && |answer| > 0 && e == UserEvent("recommendations_generated", user, RecommendationCount(|answer|))
  {
    GenerateOneSkips(users, items, s, config, user, answer, clock);
    GenerateOneEvents(users, items, s, config, user, answer, clock);
    if user in users && |answer| > 0 {
      OnlyLastGenerated(GenerateOne(users, items, s, config, user, answer, clock).events);
    }
  }

  /** In events that are "collection_created" but for the last, a "recommendations_generated" event can only be the last. */
  lemma OnlyLastGenerated(events: seq<Event>)
    requires |events| > 0
    requires forall e :: e in events[..|events| - 1] ==> e.UserEvent? && e.eventType == "collection_created"
    ensures forall e :: e in events && e.UserEvent? && e.eventType == "recommendations_generated" ==> e == events[|events| - 1]
  {
    forall e | e in events && e.UserEvent? && e.eventType == "recommendations_generated"
      ensures e == events[|events| - 1]
    {
      var k :| 0 <= k < |events| && events[k] == e;
    }
  }

  /** Without auto-creation the per-user passes leave the collections alone. */
  lemma {:induction false} GenerateAllKeeps(users: seq<Guid>, items: seq<MediaItem>, s: Store, config: Option<Configuration>,
                                            answers: Guid -> seq<RecommendationResult>, clock: Clock, us: seq<Guid>)
    requires !AutoCreate(config)
    ensures GenerateAll(users, items, s, config, answers, clock, us).after == s
  {
    if |us| > 0 {
      var init, last := us[..|us| - 1], us[|us| - 1];
      GenerateAllKeeps(users, items, s, config, answers, clock, init);
      var before := GenerateAll(users, items, s, config, answers, clock, init);
      GenerateOneSkips(users, items, before.after, config, last, answers(last), clock);
    }
  }

  /** Every known user among `us` with a non-empty answer gets its "recommendations_generated" event. */
  lemma {:induction false} GenerateAllAnnounces(users: seq<Guid>, items: seq<MediaItem>, s: Store, config: Option<Configuration>,
                                                answers: Guid -> seq<RecommendationResult>, clock: Clock, us: seq<Guid>)
    ensures forall u :: u in us && u in users && |answers(u)| > 0 ==>
              UserEvent("recommendations_generated", u, RecommendationCount(|answers(u)|)) in
              GenerateAll(users, items, s, config, answers, clock, us).events
  {
    if |us| > 0 {
      var init, last := us[..|us| - 1], us[|us| - 1];
      GenerateAllAnnounces(users, items, s, config, answers, clock, init);
      var before := GenerateAll(users, items, s, config, answers, clock, init);
      var step := GenerateOne(users, items, before.after, config, last, answers(last), clock);
      GenerateOneEvents(users, items, before.after, config, last, answers(last), clock);
      forall u | u in us && u in users && |answers(u)| > 0
        ensures UserEvent("recommendations_generated", u, RecommendationCount(|answers(u)|)) in before.events + step.events
      {
        assert us == init + [last];
        if u != last {
          assert u in init;
        } else {
          assert step.events[|step.events| - 1] in step.events;
        }
      }
    }
  }

  /** Every "recommendations_generated" event of the passes is that of a known user among `us` with a non-empty answer. */
  lemma {:induction false} GenerateAllOnlyAnswered(users: seq<Guid>, items: seq<MediaItem>, s: Store, config: Option<Configuration>,
                                                   answers: Guid -> seq<RecommendationResult>, clock: Clock, us: seq<Guid>)
    ensures forall e :: e in GenerateAll(users, items, s, config, answers, clock, us).events &&
                        e.UserEvent? && e.eventType == "recommendations_generated" ==>
              e.userId in us && e.userId in users && |answers(e.userId)| > 0 &&
              e.data == RecommendationCount(|answers(e.userId)|)
  {
    if |us| > 0 {
      var init, last := us[..|us| - 1], us[|us| - 1];
      GenerateAllOnlyAnswered(users, items, s, config, answers, clock, init);
      var before := GenerateAll(users, items, s, config, answers, clock, init);
      GenerateOneOnlyAnswered(users, items, before.after, config, last, answers(last), clock);
      assert last in us;
      forall e | e in before.events && e.UserEvent? && e.eventType == "recommendations_generated"
        ensures e.userId in us
      {
        assert e.userId in init;
      }
    }
  }

  /** The collection pass sends only "collection_created" events. */
  lemma CollectAnnounces(users: seq<Guid>, items: seq<MediaItem>, s: Store, recs: seq<RecommendationResult>,
                         max: int, user: Guid, clock: Clock)
    ensures forall e :: e in Collect(users, items, s, recs, max, user, clock).events ==>
              e.UserEvent? && e.eventType == "collection_created"
  {
    CreateAllAnnounces(users, items, s, Attempted(recs, max), user, clock);
  }

  /**
   * GenerateRecommendationsForUserAsync: false for an unknown user or an empty
   * answer; otherwise collections are made when the configuration asks for
   * it, the "recommendations_generated" event is sent last, and the result is
   * true whatever the collection step did.
   */
  method GenerateForUser(lib: Library, config: Option<Configuration>, user: Guid,
                         answer: seq<RecommendationResult>, clock: Clock)
    returns (ok: bool, events: seq<Event>)
    requires lib.Valid()
    modifies lib
    ensures lib.Valid()
    ensures lib.users == old(lib.users)
    ensures ok <==> user in old(lib.users) && |answer| > 0
    ensures !ok ==> events == []
    ensures ok ==> |events| > 0 && events[|events| - 1] == UserEvent("recommendations_generated", user, RecommendationCount(|answer|))
    ensures !ok || !AutoCreate(config) ==>
              lib.collections == old(lib.collections) && lib.items == old(lib.items) && lib.order == old(lib.order)
    ensures ok && AutoCreate(config) ==>
              Pass(events[..|events| - 1], lib.State()) ==
              Collect(old(lib.users), old(lib.items), old(lib.State()), answer, config.value.maxRecommendationCollections, user, clock)
    ensures lib.items == old(lib.items)
    ensures Pass(events, lib.State()) == GenerateOne(old(lib.users), old(lib.items), old(lib.State()), config, user, answer, clock)
  {
    if user !in lib.users || |answer| == 0 {
      return false, [];
    }
    var generated := UserEvent("recommendations_generated", user, RecommendationCount(|answer|));
    var announced := CollectionsStep(lib, config, user, answer, clock);
    events := announced + [generated];
    assert events[..|events| - 1] == announced;
    ok := true;
    if AutoCreate(config) {
      ghost var created :=
        Collect(old(lib.users), old(lib.items), old(lib.State()), answer, config.value.maxRecommendationCollections, user, clock);
      assert Pass(announced, lib.State()) == created;
      assert GenerateOne(old(lib.users), old(lib.items), old(lib.State()), config, user, answer, clock) ==
             Pass(created.events + [generated], created.after);
    } else {
      assert lib.State() == old(lib.State());
      assert GenerateOne(old(lib.users), old(lib.items), old(lib.State()), config, user, answer, clock) ==
             Pass([generated], old(lib.State()));
    }
  }

  /** Some user has a non-empty answer from the scoring service. */
  predicate SomeUserAnswered(users: seq<Guid>, answers: Guid -> seq<RecommendationResult>) {
    exists u :: u in users && |answers(u)| > 0
  }

  /** Some user among one more has an answer iff some before it had, or that one has. */
  lemma SomeUserAnsweredNext(users: seq<Guid>, answers: Guid -> seq<RecommendationResult>, i: nat)
    requires i < |users|
    ensures SomeUserAnswered(users[..i + 1], answers) <==> SomeUserAnswered(users[..i], answers) || |answers(users[i])| > 0
  {
    assert users[..i + 1] == users[..i] + [users[i]];
  }

  /**
   * GenerateRecommendationsForAllUsersAsync: every user is visited, whatever
   * happened to the users before; true iff at least one user's pass returned
   * true.
   */
  method GenerateForAllUsers(lib: Library, config: Option<Configuration>,
                             answers: Guid -> seq<RecommendationResult>, clock: Clock)
    returns (ok: bool, events: seq<Event>)
    requires lib.Valid()
    modifies lib
    ensures lib.Valid()
    ensures lib.users == old(lib.users)
    ensures ok <==> SomeUserAnswered(old(lib.users), answers)
    ensures forall u :: u in old(lib.users) && |answers(u)| > 0 ==>
              UserEvent("recommendations_generated", u, RecommendationCount(|answers(u)|)) in events
    ensures !AutoCreate(config) ==>
              lib.collections == old(lib.collections) && lib.items == old(lib.items) && lib.order == old(lib.order)
    ensures lib.items == old(lib.items)
    ensures Pass(events, lib.State()) ==
            GenerateAll(old(lib.users), old(lib.items), old(lib.State()), config, answers, clock, old(lib.users))
  {
    var users, items := lib.users, lib.items;
    var successCount := 0;
    events := [];
    for i := 0 to |users|
      invariant lib.Valid() && lib.users == users
      invariant successCount > 0 <==> SomeUserAnswered(users[..i], answers)
      invariant lib.items == items
      invariant Pass(events, lib.State()) == GenerateAll(users, items, old(lib.State()), config, answers, clock, users[..i])
    {
      GenerateAllNext(users, items, old(lib.State()), config, answers, clock, users, i);
      SomeUserAnsweredNext(users, answers, i);
      var success, sent := GenerateForUser(lib, config, users[i], answers(users[i]), clock);
      events := events + sent;
      if success {
        successCount := successCount + 1;
      }
    }
    ok := successCount > 0;
    assert users[..|users|] == users;
    GenerateAllAnnounces(users, items, old(lib.State()), config, answers, clock, users);
    if !AutoCreate(config) {
      GenerateAllKeeps(users, items, old(lib.State()), config, answers, clock, users);
    }
  }
}
