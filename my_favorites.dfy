/**
 * The favorites page of the client dashboard: the category and tone
 * filter over the caller's favorite lessons; its two option lists are
 * `Domain.Categories` and `Domain.Tones` of the favorites.
 */
module MyFavorites {
  import opened Seqs
  import opened Domain
  import PublicLessons

  /** `(!categoryFilter || lesson.category === categoryFilter) && (!toneFilter || ...)`. */
  function FavoriteMatch(category: string, tone: string): Lesson -> bool
  {
    (l: Lesson) => (category == "" || l.category == category) && (tone == "" || l.emotionalTone == tone)
  }

  /** `filteredFavorites`. */
  function FilteredFavorites(favorites: seq<Lesson>, category: string, tone: string): (r: seq<Lesson>)
    ensures forall l :: l in r ==>
      (category == "" || l.category == category) && (tone == "" || l.emotionalTone == tone)
    ensures forall l ::
      (l in favorites && (category == "" || l.category == category) && (tone == "" || l.emotionalTone == tone))
      ==> l in r
    ensures IsSubsequence(r, favorites)
  {
    FilterIsSubsequence(favorites, FavoriteMatch(category, tone));
    Filter(favorites, FavoriteMatch(category, tone))
  }

  /** With both selects on "All", every favorite is listed. */
  lemma EmptyFiltersListAll(favorites: seq<Lesson>)
    ensures FilteredFavorites(favorites, "", "") == favorites
  {
    FilterAll(favorites, FavoriteMatch("", ""));
  }

  /** The one combined predicate keeps the same lessons as the public list's two separate filters. */
  lemma SameAsPublicFilters(favorites: seq<Lesson>, category: string, tone: string)
    ensures FilteredFavorites(favorites, category, tone) == PublicLessons.Filtered(favorites, "", category, tone)
  {
    var c := PublicLessons.CategoryMatch(category);
    var t := PublicLessons.ToneMatch(tone);
    var m := FavoriteMatch(category, tone);
    if category != "" && tone != "" {
      FilterFuse(favorites, c, t, m);
    } else if category != "" {
      FilterExt(favorites, m, c);
    } else if tone != "" {
      FilterExt(favorites, m, t);
    } else {
      FilterAll(favorites, m);
    }
  }

  /** Picking any offered category never empties the list. */
  lemma OfferedCategoryKeepsSome(favorites: seq<Lesson>, c: string)
    requires c in Categories(favorites)
    ensures FilteredFavorites(favorites, c, "") != []
  {
    var i :| 0 <= i < |favorites| && favorites[i].category == c;
    assert favorites[i] in favorites;
    assert favorites[i] in FilteredFavorites(favorites, c, "");
  }
}
