/**
 * How the recommendation service turns a flat list of scored candidates into
 * named groups: the category rule table (ExtractPrimaryCategory), grouping by
 * category ordered by mean score (GroupRecommendationsByCategory), and the
 * display name of a group's collection (GenerateCollectionName).
 */
module Classifier {
  import opened Text
  import opened Entities
  import opened Sequences

  const SimilarContent := "Similar Content"
  const GenreRecommendations := "Genre Recommendations"
  const CastAndCrew := "Based on Cast & Crew"
  const TrendingNow := "Trending Now"
  const NewReleases := "New Releases"
  const ForYou := "For You"

  /** The six labels a candidate can be classified under. */
  predicate IsLabel(c: string) {
    c == SimilarContent || c == GenreRecommendations || c == CastAndCrew ||
    c == TrendingNow || c == NewReleases || c == ForYou
  }

  /** The lower-cased first tag, or the empty string when there are no tags. */
  function FirstTag(rec: RecommendationResult): string {
    if |rec.tags| == 0 then "" else ToLower(rec.tags[0])
  }

  /**
   * The category of a candidate: the first rule of the table whose keywords
   * occur in the lower-cased reason (or, for the genre rule only, in the
   * lower-cased first tag); "For You" when none does.
   */
  function Category(rec: RecommendationResult): (c: string)
    ensures IsLabel(c)
    ensures c == ForYou <==>
              !Contains(ToLower(rec.reason), "similar") && !Contains(ToLower(rec.reason), "like") &&
              !Contains(ToLower(rec.reason), "genre") && !Contains(FirstTag(rec), "genre") &&
              !Contains(ToLower(rec.reason), "actor") && !Contains(ToLower(rec.reason), "director") &&
              !Contains(ToLower(rec.reason), "trending") && !Contains(ToLower(rec.reason), "popular") &&
              !Contains(ToLower(rec.reason), "recent") && !Contains(ToLower(rec.reason), "new")
  {
    var reason := ToLower(rec.reason);
    var tag := FirstTag(rec);
    if Contains(reason, "similar") || Contains(reason, "like") then SimilarContent
    else if Contains(reason, "genre") || Contains(tag, "genre") then GenreRecommendations
    else if Contains(reason, "actor") || Contains(reason, "director") then CastAndCrew
    else if Contains(reason, "trending") || Contains(reason, "popular") then TrendingNow
    else if Contains(reason, "recent") || Contains(reason, "new") then NewReleases
    else ForYou
  }

  /**
   * The tags are consulted by the genre rule only: two candidates with the
   * same reason land in the same category unless one of them is a genre
   * recommendation.
   */
  lemma TagsOnlyDecideGenre(r1: RecommendationResult, r2: RecommendationResult)
    requires r1.reason == r2.reason
    ensures Category(r1) == Category(r2) ||
            Category(r1) == GenreRecommendations || Category(r2) == GenreRecommendations
  {
  }

  /** A reason mentioning "similar" or "like" wins over every other rule, whatever the tags say. */
  lemma SimilarRuleFirst(rec: RecommendationResult)
    requires Contains(ToLower(rec.reason), "similar") || Contains(ToLower(rec.reason), "like")
    ensures Category(rec) == SimilarContent
  {
  }

  /** One group: a category and the candidates classified under it, in input order. */
  datatype Group = Group(key: string, members: seq<RecommendationResult>)

  /** The category of each candidate, in input order. */
  function CategoriesOf(recs: seq<RecommendationResult>): (cs: seq<string>)
    ensures |cs| == |recs|
    ensures forall i :: 0 <= i < |recs| ==> cs[i] == Category(recs[i])
  {
    seq(|recs|, i requires 0 <= i < |recs| => Category(recs[i]))
  }

  function InCategory(key: string): RecommendationResult -> bool {
    r => Category(r) == key
  }

  /** The group of one category (GroupBy keeps the input order inside a group). */
  function GroupOf(recs: seq<RecommendationResult>, key: string): Group {
    Group(key, Filter(recs, InCategory(key)))
  }

  /** The categories that occur, each once, in order of first appearance. */
  function Keys(recs: seq<RecommendationResult>): (keys: seq<string>)
    ensures forall k :: k in keys <==> exists r :: r in recs && k == Category(r)
    ensures NoDuplicates(keys)
  {
    var keys := Distinct(CategoriesOf(recs));
    forall k ensures k in keys <==> exists r :: r in recs && k == Category(r) {
      if k in CategoriesOf(recs) {
        var i :| 0 <= i < |recs| && CategoriesOf(recs)[i] == k;
        assert recs[i] in recs;
      }
      if exists r :: r in recs && k == Category(r) {
        var r :| r in recs && k == Category(r);
        var i :| 0 <= i < |recs| && recs[i] == r;
        assert CategoriesOf(recs)[i] == k;
      }
    }
    keys
  }

  /** The groups in the order in which their categories first appear. */
  function AllGroups(recs: seq<RecommendationResult>): (gs: seq<Group>)
    ensures forall g :: g in gs <==> exists r :: r in recs && g == GroupOf(recs, Category(r))
    ensures NoDuplicates(gs)
  {
    var keys := Keys(recs);
    var gs := seq(|keys|, i requires 0 <= i < |keys| => GroupOf(recs, keys[i]));
    forall g ensures g in gs <==> exists k :: k in keys && g == GroupOf(recs, k) {
      if exists k :: k in keys && g == GroupOf(recs, k) {
        var k :| k in keys && g == GroupOf(recs, k);
        var i :| 0 <= i < |keys| && keys[i] == k;
        assert gs[i] == g;
      }
    }
    gs
  }

  function SumOfScores(rs: seq<RecommendationResult>): real {
    if |rs| == 0 then 0.0 else SumOfScores(rs[..|rs| - 1]) + rs[|rs| - 1].score
  }

  /** The average score of a group (Average over its members). */
  function MeanScore(g: Group): real {
    if |g.members| == 0 then 0.0 else SumOfScores(g.members) / (|g.members| as real)
  }

  function LargeEnough(g: Group): bool {
    |g.members| >= 3
  }

  /** GroupRecommendationsByCategory: group, order by mean score descending, keep groups of three or more. */
  function GroupRecommendations(recs: seq<RecommendationResult>): seq<Group> {
    Filter(SortDesc(AllGroups(recs), MeanScore), LargeEnough)
  }

  /**
   * Every group has at least three members, all of the group's category and
   * exactly the candidates of that category in input order; the groups come
   * in non-increasing mean-score order with distinct categories; and every
   * category with at least three candidates has its group.
   */
  lemma GroupingSound(recs: seq<RecommendationResult>)
    ensures forall g :: g in GroupRecommendations(recs) ==> |g.members| >= 3
    ensures forall g :: g in GroupRecommendations(recs) ==> g.members == Filter(recs, InCategory(g.key))
    ensures forall g, r :: g in GroupRecommendations(recs) && r in g.members ==> Category(r) == g.key
    ensures SortedDesc(GroupRecommendations(recs), MeanScore)
    ensures forall i, j :: 0 <= i < j < |GroupRecommendations(recs)| ==>
              GroupRecommendations(recs)[i].key != GroupRecommendations(recs)[j].key
    ensures forall r :: r in recs && |Filter(recs, InCategory(Category(r)))| >= 3 ==>
              exists g :: g in GroupRecommendations(recs) && g.key == Category(r)
  {
    var all := AllGroups(recs);
    var sorted := SortDesc(all, MeanScore);
    var groups := GroupRecommendations(recs);
    SameMultisetSameElements(sorted, all);
    FilterKeepsSorted(sorted, LargeEnough, MeanScore);
    SortKeepsNoDuplicates(all, MeanScore);
    FilterKeepsNoDuplicates(sorted, LargeEnough);
    forall g | g in groups ensures g.members == Filter(recs, InCategory(g.key)) {
      var r :| r in recs && g == GroupOf(recs, Category(r));
    }
    forall i, j | 0 <= i < j < |groups| ensures groups[i].key != groups[j].key {
      assert groups[i] in groups && groups[j] in groups;
    }
    forall r | r in recs && |Filter(recs, InCategory(Category(r)))| >= 3
      ensures exists g :: g in groups && g.key == Category(r)
    {
      var g := GroupOf(recs, Category(r));
      assert g in all && g in sorted && LargeEnough(g);
      assert g in groups;
    }
  }

  /** The display phrase of a category's collection. */
  function DisplayPhrase(category: string): string {
    if category == SimilarContent then "More Like Your Favorites"
    else if category == GenreRecommendations then "Discover New Genres"
    else if category == CastAndCrew then "From Your Favorite Creators"
    else if category == TrendingNow then "What's Trending"
    else if category == NewReleases then "Fresh Picks"
    else "Recommended for You"
  }

  /** GenerateCollectionName: the display phrase and the "MMM dd" stamp in parentheses. */
  function CollectionName(category: string, day: string): string {
    DisplayPhrase(category) + " (" + day + ")"
  }

  /** A name ends with the day in parentheses, after the display phrase. */
  lemma CollectionNameSuffix(category: string, day: string)
    ensures var n := CollectionName(category, day);
            |n| >= |day| + 3 && n[|n| - |day| - 3..] == " (" + day + ")" &&
            n[..|n| - |day| - 3] == DisplayPhrase(category)
  {
    var n := CollectionName(category, day);
    assert n == DisplayPhrase(category) + (" (" + day + ")");
  }

  /** On one day, distinct labels give distinct names. */
  lemma CollectionNamesDistinct(c1: string, c2: string, day: string)
    requires IsLabel(c1) && IsLabel(c2) && c1 != c2
    ensures CollectionName(c1, day) != CollectionName(c2, day)
  {
    CollectionNameSuffix(c1, day);
    CollectionNameSuffix(c2, day);
  }

}
