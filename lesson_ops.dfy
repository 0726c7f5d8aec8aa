/**
 * The updates the lesson handlers apply to one lesson document: the
 * like and favorite toggles, the unconditional favorite removal, the view
 * counter, the appended comment and the owner's field update.
 */
module LessonOps {
  import opened Wrappers
  import opened Seqs
  import opened UpdateOps
  import opened Domain

  /**
   * The membership toggle of a like or favorite: when `u` is a member,
   * `$pull` it and `$inc` the counter by -1, otherwise `$addToSet` it and
   * `$inc` by 1.
   */
  function Toggle(members: seq<string>, count: int, u: string): (r: (seq<string>, int))
    ensures u in members ==> u !in r.0 && r.1 == count - 1
    ensures u !in members ==> r.0 == members + [u] && r.1 == count + 1
    ensures forall v :: v != u ==> (v in r.0 <==> v in members)
  {
    if u in members then (Pull(members, u), count - 1)
    else (AddToSet(members, u), count + 1)
  }

  /** Counter and list agree, and the list holds no duplicate. */
  predicate Agrees(members: seq<string>, count: int)
  {
    NoDup(members) && count == |members|
  }

  /** A toggle keeps a counter that agreed with its duplicate-free list in agreement. */
  lemma ToggleKeepsAgreement(members: seq<string>, count: int, u: string)
    requires Agrees(members, count)
    ensures Agrees(Toggle(members, count, u).0, Toggle(members, count, u).1)
  {
    if u in members {
      assert multiset(members)[u] == 1 by { NoDupCountOne(members, u); }
    }
  }

  lemma {:induction false} NoDupCountOne<T>(s: seq<T>, x: T)
    requires NoDup(s) && x in s
    ensures multiset(s)[x] == 1
  {
    var i :| 0 <= i < |s| && s[i] == x;
    NoDupSplit(s, i);
    assert s == s[..i] + [x] + s[i + 1..];
    assert multiset(s[..i])[x] == 0 && multiset(s[i + 1..])[x] == 0;
  }

  /**
   * Toggling twice for the same user restores the counter and the set of
   * members; the list itself comes back unchanged when the user was not a
   * member, and with the same elements when it was a duplicate-free list.
   */
  lemma {:induction false} ToggleTwice(members: seq<string>, count: int, u: string)
    ensures var once := Toggle(members, count, u);
      var twice := Toggle(once.0, once.1, u);
      && twice.1 == count
      && (forall v :: v in twice.0 <==> v in members)
      && (u !in members ==> twice.0 == members)
      && (NoDup(members) ==> multiset(twice.0) == multiset(members))
  {
    if u in members {
      if NoDup(members) { AddBackPulled(members, u); }
    } else {
      PullAppended(members, u);
    }
  }

  function ToggleLike(l: Lesson, u: string): (r: Lesson)
    ensures (r.likes, r.likesCount) == Toggle(l.likes, l.likesCount, u)
    ensures r.(likes := l.likes, likesCount := l.likesCount) == l
  {
    var t := Toggle(l.likes, l.likesCount, u);
    l.(likes := t.0, likesCount := t.1)
  }

  function ToggleFavorite(l: Lesson, u: string): (r: Lesson)
    ensures (r.favorites, r.favoritesCount) == Toggle(l.favorites, l.favoritesCount, u)
    ensures r.(favorites := l.favorites, favoritesCount := l.favoritesCount) == l
  {
    var t := Toggle(l.favorites, l.favoritesCount, u);
    l.(favorites := t.0, favoritesCount := t.1)
  }

  /** Liking twice leaves the lesson as it was whenever the user had not liked it. */
  lemma LikeTwice(l: Lesson, u: string)
    ensures ToggleLike(ToggleLike(l, u), u).likesCount == l.likesCount
    ensures forall v :: v in ToggleLike(ToggleLike(l, u), u).likes <==> v in l.likes
    ensures u !in l.likes ==> ToggleLike(ToggleLike(l, u), u) == l
    ensures NoDup(l.likes) ==> multiset(ToggleLike(ToggleLike(l, u), u).likes) == multiset(l.likes)
  {
    ToggleTwice(l.likes, l.likesCount, u);
  }

  lemma FavoriteTwice(l: Lesson, u: string)
    ensures ToggleFavorite(ToggleFavorite(l, u), u).favoritesCount == l.favoritesCount
    ensures forall v :: v in ToggleFavorite(ToggleFavorite(l, u), u).favorites <==> v in l.favorites
    ensures u !in l.favorites ==> ToggleFavorite(ToggleFavorite(l, u), u) == l
    ensures NoDup(l.favorites) ==>
      multiset(ToggleFavorite(ToggleFavorite(l, u), u).favorites) == multiset(l.favorites)
  {
    ToggleTwice(l.favorites, l.favoritesCount, u);
  }

  /** Both toggles keep both counter invariants. */
  lemma TogglesKeepConsistency(l: Lesson, u: string)
    requires LikesConsistent(l) && FavoritesConsistent(l)
    ensures LikesConsistent(ToggleLike(l, u)) && FavoritesConsistent(ToggleLike(l, u))
    ensures LikesConsistent(ToggleFavorite(l, u)) && FavoritesConsistent(ToggleFavorite(l, u))
  {
    ToggleKeepsAgreement(l.likes, l.likesCount, u);
    ToggleKeepsAgreement(l.favorites, l.favoritesCount, u);
  }

  /** `/favorites/remove`: `$pull` the caller and `$inc` the counter by -1, member or not. */
  function RemoveFavorite(l: Lesson, u: string): (r: Lesson)
    ensures r.favorites == Pull(l.favorites, u)
    ensures r.favoritesCount == l.favoritesCount - 1
    ensures r.(favorites := l.favorites, favoritesCount := l.favoritesCount) == l
  {
    l.(favorites := Pull(l.favorites, u), favoritesCount := l.favoritesCount - 1)
  }

  /**
   * The removal keeps a consistent lesson consistent exactly when the
   * caller was among its favorites; otherwise the counter falls one below
   * the list's length.
   */
  lemma RemoveFavoriteConsistency(l: Lesson, u: string)
    requires FavoritesConsistent(l)
    ensures FavoritesConsistent(RemoveFavorite(l, u)) <==> u in l.favorites
    ensures u !in l.favorites ==> RemoveFavorite(l, u).favoritesCount == |RemoveFavorite(l, u).favorites| - 1
  {
    if u in l.favorites { NoDupCountOne(l.favorites, u); }
  }

  /** `$inc: {viewsCount: 1}`. */
  function RecordView(l: Lesson): (r: Lesson)
    ensures r.viewsCount == l.viewsCount + 1
    ensures r.(viewsCount := l.viewsCount) == l
  {
    l.(viewsCount := l.viewsCount + 1)
  }

  /** `$push: {comments: c}`: the comment goes last, the earlier ones stay. */
  function AppendComment(l: Lesson, c: Comment): (r: Lesson)
    ensures |r.comments| == |l.comments| + 1
    ensures r.comments[..|l.comments|] == l.comments && r.comments[|l.comments|] == c
    ensures r.(comments := l.comments) == l
  {
    l.(comments := l.comments + [c])
  }

  /** `$set: {isFeatured}` from the admin's toggle. */
  function SetFeatured(l: Lesson, featured: bool): (r: Lesson)
    ensures r.isFeatured == featured
    ensures r.(isFeatured := l.isFeatured) == l
  {
    l.(isFeatured := featured)
  }

  /** `$set: {isReviewed: true}`. */
  function MarkReviewed(l: Lesson): (r: Lesson)
    ensures r.isReviewed
    ensures r.(isReviewed := l.isReviewed) == l
  {
    l.(isReviewed := true)
  }

  /** The fields a lesson edit supplies; an absent field is left alone. */
  datatype LessonPatch = LessonPatch(
    title: Option<string>,
    description: Option<string>,
    fullDescription: Option<string>,
    category: Option<string>,
    emotionalTone: Option<string>,
    accessLevel: Option<string>)

  function Pick(update: Option<string>, current: string): string
  {
    match update
    case Some(v) => v
    case None => current
  }

  /** `$set: updates`: every supplied field is overwritten, every other field kept. */
  function ApplyPatch(l: Lesson, p: LessonPatch): (r: Lesson)
    ensures p.title.Some? ==> r.title == p.title.value
    ensures p.title.None? ==> r.title == l.title
    ensures p.description.Some? ==> r.description == p.description.value
    ensures p.description.None? ==> r.description == l.description
    ensures p.fullDescription.Some? ==> r.fullDescription == p.fullDescription.value
    ensures p.fullDescription.None? ==> r.fullDescription == l.fullDescription
    ensures p.category.Some? ==> r.category == p.category.value
    ensures p.category.None? ==> r.category == l.category
    ensures p.emotionalTone.Some? ==> r.emotionalTone == p.emotionalTone.value
    ensures p.emotionalTone.None? ==> r.emotionalTone == l.emotionalTone
    ensures p.accessLevel.Some? ==> r.accessLevel == p.accessLevel.value
    ensures p.accessLevel.None? ==> r.accessLevel == l.accessLevel
    ensures r.(title := l.title, description := l.description, fullDescription := l.fullDescription,
               category := l.category, emotionalTone := l.emotionalTone, accessLevel := l.accessLevel) == l
  {
    l.(title := Pick(p.title, l.title),
       description := Pick(p.description, l.description),
       fullDescription := Pick(p.fullDescription, l.fullDescription),
       category := Pick(p.category, l.category),
       emotionalTone := Pick(p.emotionalTone, l.emotionalTone),
       accessLevel := Pick(p.accessLevel, l.accessLevel))
  }

  /** Applying the same edit twice is applying it once; the empty edit changes nothing. */
  lemma PatchIdempotent(l: Lesson, p: LessonPatch)
    ensures ApplyPatch(ApplyPatch(l, p), p) == ApplyPatch(l, p)
    ensures ApplyPatch(l, LessonPatch(None, None, None, None, None, None)) == l
  {
  }
}
