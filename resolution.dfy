/**
 * Identity resolution: mapping a scored candidate to a library item by
 * internal id, then by TMDB id, then by case-insensitive name
 * (GetItemIdsFromRecommendationsAsync in the collection service, and the
 * identical cascade of ConvertRecommendationsToBaseItems in the home-screen
 * service).
 */
module Resolution {
  import opened Wrappers
  import opened Text
  import opened Entities
  import opened Sequences
  import opened Library

  /**
   * The item type a name lookup is restricted to: "Movie" or "Series" when the
   * candidate's type equals one of them ignoring case; any other type,
   * including the empty one, leaves the lookup unrestricted.
   */
  function TypeFilter(itemType: string): Option<string> {
    if EqualsIgnoreCase(itemType, "Movie") then Some("Movie")
    else if EqualsIgnoreCase(itemType, "Series") then Some("Series")
    else None
  }

  /** The item's "Tmdb" provider id is exactly the decimal rendering of `tmdbId`. */
  predicate TmdbMatches(it: MediaItem, tmdbId: Int32) {
    "Tmdb" in it.providerIds && it.providerIds["Tmdb"] == IntToString(tmdbId)
  }

  /** The item passes the type restriction and its name equals `name` ignoring case. */
  predicate NameMatches(it: MediaItem, name: string, restriction: Option<string>) {
    (restriction.None? || it.itemType == restriction.value) && EqualsIgnoreCase(it.name, name)
  }

  /** Step 1 applies: a non-empty internal id that the library knows. */
  predicate ById(items: seq<MediaItem>, collections: map<Guid, BoxSet>, rec: RecommendationResult) {
    rec.itemId != EmptyGuid && ItemExists(items, collections, rec.itemId)
  }

  /** Step 2 applies: a TMDB id that some media item carries. */
  predicate ByTmdb(items: seq<MediaItem>, rec: RecommendationResult) {
    rec.tmdbId.Some? && exists it :: it in items && TmdbMatches(it, rec.tmdbId.value)
  }

  /** Step 3 applies: a non-empty name that some media item of the right type carries. */
  predicate ByName(items: seq<MediaItem>, rec: RecommendationResult) {
    rec.itemName != "" && exists it :: it in items && NameMatches(it, rec.itemName, TypeFilter(rec.itemType))
  }

  /** Position `k` holds the first item of the scan that the TMDB step accepts. */
  predicate FirstTmdbAt(items: seq<MediaItem>, k: int, tmdbId: Int32) {
    0 <= k < |items| && TmdbMatches(items[k], tmdbId) &&
    forall j :: 0 <= j < k ==> !TmdbMatches(items[j], tmdbId)
  }

  /** Position `k` holds the first item of the scan that the name step accepts. */
  predicate FirstNameAt(items: seq<MediaItem>, k: int, rec: RecommendationResult) {
    0 <= k < |items| && NameMatches(items[k], rec.itemName, TypeFilter(rec.itemType)) &&
    forall j :: 0 <= j < k ==> !NameMatches(items[j], rec.itemName, TypeFilter(rec.itemType))
  }

  function TmdbStep(tmdbId: Int32): MediaItem -> bool {
    it => TmdbMatches(it, tmdbId)
  }

  function NameStep(rec: RecommendationResult): MediaItem -> bool {
    it => NameMatches(it, rec.itemName, TypeFilter(rec.itemType))
  }

  /** The library item one candidate resolves to, if any. */
  function ResolveOne(items: seq<MediaItem>, collections: map<Guid, BoxSet>, rec: RecommendationResult): (r: Option<Guid>)
    ensures r.Some? ==> ItemExists(items, collections, r.value)
  {
    if ById(items, collections, rec) then Some(rec.itemId)
    else
      var byTmdb := if rec.tmdbId.Some? then FirstMatch(items, TmdbStep(rec.tmdbId.value)) else None;
      if byTmdb.Some? then Some(byTmdb.value.id)
      else if rec.itemName != "" then
        var byName := FirstMatch(items, NameStep(rec));
        if byName.Some? then Some(byName.value.id) else None
      else None
  }

  /**
   * The cascade's precedence: a known internal id wins; otherwise the first
   * item whose TMDB id matches; otherwise the first item of the right type
   * whose name matches ignoring case; otherwise nothing.
   */
  lemma ResolutionPrecedence(items: seq<MediaItem>, collections: map<Guid, BoxSet>, rec: RecommendationResult)
    ensures ById(items, collections, rec) ==> ResolveOne(items, collections, rec) == Some(rec.itemId)
    ensures !ById(items, collections, rec) && ByTmdb(items, rec) ==>
              exists k :: FirstTmdbAt(items, k, rec.tmdbId.value) && ResolveOne(items, collections, rec) == Some(items[k].id)
    ensures !ById(items, collections, rec) && !ByTmdb(items, rec) && ByName(items, rec) ==>
              exists k :: FirstNameAt(items, k, rec) && ResolveOne(items, collections, rec) == Some(items[k].id)
    ensures ResolveOne(items, collections, rec).None? <==>
              !ById(items, collections, rec) && !ByTmdb(items, rec) && !ByName(items, rec)
  {
    if !ById(items, collections, rec) {
      var byTmdb := if rec.tmdbId.Some? then FirstMatch(items, TmdbStep(rec.tmdbId.value)) else None;
      if byTmdb.Some? {
        var k :| 0 <= k < |items| && items[k] == byTmdb.value && TmdbStep(rec.tmdbId.value)(items[k]) &&
                 forall j :: 0 <= j < k ==> !TmdbStep(rec.tmdbId.value)(items[j]);
        assert FirstTmdbAt(items, k, rec.tmdbId.value);
      } else {
        assert !ByTmdb(items, rec) by {
          if rec.tmdbId.Some? {
            forall it | it in items ensures !TmdbMatches(it, rec.tmdbId.value) {
              var i :| 0 <= i < |items| && items[i] == it;
              assert !TmdbStep(rec.tmdbId.value)(items[i]);
            }
          }
        }
        if rec.itemName != "" {
          var byName := FirstMatch(items, NameStep(rec));
          if byName.Some? {
            var k :| 0 <= k < |items| && items[k] == byName.value && NameStep(rec)(items[k]) &&
                     forall j :: 0 <= j < k ==> !NameStep(rec)(items[j]);
            assert FirstNameAt(items, k, rec);
          } else {
            forall it | it in items ensures !NameMatches(it, rec.itemName, TypeFilter(rec.itemType)) {
              var i :| 0 <= i < |items| && items[i] == it;
              assert !NameStep(rec)(items[i]);
            }
          }
        }
      }
    }
  }

  /** ResolveOne as a function value. */
  function Resolver(items: seq<MediaItem>, collections: map<Guid, BoxSet>): RecommendationResult -> Option<Guid> {
    rec => ResolveOne(items, collections, rec)
  }

  /** The ids the candidates resolve to, in candidate order, unresolved ones dropped. */
  function ResolveAll(items: seq<MediaItem>, collections: map<Guid, BoxSet>, recs: seq<RecommendationResult>): seq<Guid> {
    FilterMap(recs, Resolver(items, collections))
  }

  /** The resolved ids with repeats removed: what the collection and home-screen services use. */
  function ResolvedIds(items: seq<MediaItem>, collections: map<Guid, BoxSet>, recs: seq<RecommendationResult>): seq<Guid> {
    Distinct(ResolveAll(items, collections, recs))
  }

  /** Resolved ids are distinct, all exist in the library, and are exactly the candidates' resolutions. */
  lemma ResolvedIdsSound(items: seq<MediaItem>, collections: map<Guid, BoxSet>, recs: seq<RecommendationResult>)
    ensures NoDuplicates(ResolvedIds(items, collections, recs))
    ensures forall x :: x in ResolvedIds(items, collections, recs) ==> ItemExists(items, collections, x)
    ensures forall x :: x in ResolvedIds(items, collections, recs) <==>
              exists i :: 0 <= i < |recs| && ResolveOne(items, collections, recs[i]) == Some(x)
    ensures |ResolvedIds(items, collections, recs)| == 0 <==>
              forall i :: 0 <= i < |recs| ==> ResolveOne(items, collections, recs[i]).None?
  {
    var ids := ResolvedIds(items, collections, recs);
    FilterMapMembers(recs, Resolver(items, collections));
    if |ids| > 0 {
      assert ids[0] in ids;
    }
  }

  /**
   * The resolution loop: each candidate is looked up in turn and its id
   * appended; the list is then made distinct.
   */
  method ResolveItemIds(lib: Library, recs: seq<RecommendationResult>) returns (ids: seq<Guid>)
    ensures ids == ResolvedIds(lib.items, lib.collections, recs)
  {
    var items, collections := lib.items, lib.collections;
    var found: seq<Guid> := [];
    for i := 0 to |recs|
      invariant found == ResolveAll(items, collections, recs[..i])
    {
      FilterMapStep(recs, Resolver(items, collections), i);
      var r := ResolveOne(items, collections, recs[i]);
      if r.Some? {
        found := found + [r.value];
      }
    }
    assert recs[..|recs|] == recs;
    ids := Distinct(found);
  }

  /** Precedence: a candidate whose internal id the library knows resolves to it, whatever its TMDB id and name say. */
  lemma InternalIdWins(items: seq<MediaItem>, collections: map<Guid, BoxSet>, rec: RecommendationResult, other: RecommendationResult)
    requires ById(items, collections, rec)
    requires other.itemId == rec.itemId
    ensures ResolveOne(items, collections, other) == ResolveOne(items, collections, rec) == Some(rec.itemId)
  {
  }
}
