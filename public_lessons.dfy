/**
 * The public lesson list of the client: title search, category and tone
 * filters, the in-place sort, pagination by twelve, the Previous/Next
 * clamps. The two selects offer `Domain.Categories` and `Domain.Tones` of
 * the whole list.
 */
module PublicLessons {
  import opened Seqs
  import opened Domain

  /** Lessons shown on one page. */
  const LessonsPerPage: nat := 12

  /** `toLowerCase` on ASCII letters; every other character is kept. */
  function LowerChar(c: char): (r: char)
    ensures 'A' <= c <= 'Z' ==> r as int == c as int + 32
    ensures !('A' <= c <= 'Z') ==> r == c
  {
    if 'A' <= c <= 'Z' then (c as int + 32) as char else c
  }

  function Lower(s: string): (r: string)
    ensures |r| == |s|
    ensures forall i :: 0 <= i < |s| ==> r[i] == LowerChar(s[i])
  {
    Map(s, LowerChar)
  }

  /** `s.includes(t)`: `t` occurs in `s` at some offset. */
  predicate Includes(s: string, t: string)
  {
    exists i :: 0 <= i <= |s| - |t| && OccursAt(s, t, i)
  }

  predicate OccursAt(s: string, t: string, i: nat)
  {
    i + |t| <= |s| && s[i..i + |t|] == t
  }

  /** The title search: the lower-cased title includes the lower-cased term. */
  function TitleMatch(term: string): Lesson -> bool
  {
    (l: Lesson) => Includes(Lower(l.title), Lower(term))
  }

  lemma LowerIdempotent(s: string)
    ensures Lower(Lower(s)) == Lower(s)
  {
  }

  /** The search ignores the case of the term. */
  lemma SearchIgnoresCase(l: Lesson, term: string)
    ensures TitleMatch(Lower(term))(l) == TitleMatch(term)(l)
  {
    LowerIdempotent(term);
  }

  function CategoryMatch(category: string): Lesson -> bool
  {
    (l: Lesson) => l.category == category
  }

  function ToneMatch(tone: string): Lesson -> bool
  {
    (l: Lesson) => l.emotionalTone == tone
  }

  /** One `if (value) result = result.filter(p)` step: applied when `on`, skipped otherwise. */
  function Step(s: seq<Lesson>, on: bool, p: Lesson -> bool): (r: seq<Lesson>)
    ensures multiset(r) <= multiset(s)
    ensures forall l :: l in r ==> l in s && (on ==> p(l))
    ensures forall l :: l in s && (on ==> p(l)) ==> l in r
  {
    FilterSubMultiset(s, p);
    if on then Filter(s, p) else s
  }

  /** The three filters in the order the list applies them; an empty value skips its filter. */
  function Filtered(ls: seq<Lesson>, term: string, category: string, tone: string): (r: seq<Lesson>)
    ensures multiset(r) <= multiset(ls)
    ensures forall l :: l in r ==>
      && (term != "" ==> Includes(Lower(l.title), Lower(term)))
      && (category != "" ==> l.category == category)
      && (tone != "" ==> l.emotionalTone == tone)
    ensures forall l ::
      (&& l in ls
       && (term != "" ==> Includes(Lower(l.title), Lower(term)))
       && (category != "" ==> l.category == category)
       && (tone != "" ==> l.emotionalTone == tone))
      ==> l in r
  {
    var byTitle := Step(ls, term != "", TitleMatch(term));
    var byCategory := Step(byTitle, category != "", CategoryMatch(category));
    var r := Step(byCategory, tone != "", ToneMatch(tone));
    assert forall l :: l in r ==> l in byCategory && l in byTitle;
    r
  }

  /** With every filter empty the list is the fetched list itself. */
  lemma EmptyFiltersKeepAll(ls: seq<Lesson>)
    ensures Filtered(ls, "", "", "") == ls
  {
  }

  /** The category and tone filters commute: filtering by tone first gives the same list. */
  lemma CategoryToneCommute(ls: seq<Lesson>, term: string, category: string, tone: string)
    ensures Filtered(ls, term, category, tone) == Filtered(Filtered(ls, "", "", tone), term, category, "")
  {
    var c := CategoryMatch(category);
    var t := ToneMatch(tone);
    var m := TitleMatch(term);
    if term != "" && tone != "" {
      FilterCommutes(ls, t, m);
    }
    if category != "" && tone != "" {
      var byTitle := if term != "" then Filter(ls, m) else ls;
      FilterCommutes(byTitle, c, t);
    }
  }

  /** `new Date(b.createdAt) - new Date(a.createdAt)`: newest first. */
  const ByCreatedAt: Lesson -> int := (l: Lesson) => l.createdAt

  /** `(b.favoritesCount || 0) - (a.favoritesCount || 0)`: most saved first. */
  const ByFavorites: Lesson -> int := (l: Lesson) => l.favoritesCount

  /** `Array.prototype.filter`: a new array holding the kept elements in order. */
  method FilterArray(a: array<Lesson>, p: Lesson -> bool) returns (b: array<Lesson>)
    ensures fresh(b)
    ensures b[..] == Filter(a[..], p)
  {
    var s := Filter(a[..], p);
    b := new Lesson[|s|](i requires 0 <= i < |s| => s[i]);
    assert b[..] == s;
  }

  /** Swaps `a[j - 1]` and `a[j]`, leaving every other slot alone. */
  method SwapDown(a: array<Lesson>, j: nat)
    requires 0 < j < a.Length
    modifies a
    ensures a[j - 1] == old(a[j]) && a[j] == old(a[j - 1])
    ensures forall k :: 0 <= k < a.Length && k != j - 1 && k != j ==> a[k] == old(a[k])
    ensures multiset(a[..]) == multiset(old(a[..]))
  {
    a[j - 1], a[j] := a[j], a[j - 1];
  }

  /**
   * One pass of the insertion sort: with `a[..i]` in non-increasing key
   * order, moves `a[i]` left past every smaller key, so that `a[..i + 1]`
   * is ordered; the slots after `i` are not touched.
   */
  method SinkLeft(a: array<Lesson>, i: nat, key: Lesson -> int)
    requires i < a.Length
    requires forall p, q :: 0 <= p < q < i ==> key(a[p]) >= key(a[q])
    modifies a
    ensures forall p, q :: 0 <= p < q <= i ==> key(a[p]) >= key(a[q])
    ensures forall k :: i < k < a.Length ==> a[k] == old(a[k])
    ensures multiset(a[..]) == multiset(old(a[..]))
  {
    var j := i;
    while j > 0 && key(a[j - 1]) < key(a[j])
      invariant 0 <= j <= i < a.Length
      invariant forall p, q :: 0 <= p < q <= i && p != j && q != j ==> key(a[p]) >= key(a[q])
      invariant forall q :: j < q <= i ==> key(a[j]) > key(a[q])
      invariant forall k :: i < k < a.Length ==> a[k] == old(a[k])
      invariant multiset(a[..]) == multiset(old(a[..]))
    {
      SwapDown(a, j);
      j := j - 1;
    }
  }

  /**
   * `result.sort(comparator)`: an insertion sort by adjacent swaps that
   * leaves the array in non-increasing key order with the same elements.
   */
  method SortInPlace(a: array<Lesson>, key: Lesson -> int)
    modifies a
    ensures SortedDesc(a[..], key)
    ensures multiset(a[..]) == multiset(old(a[..]))
  {
    var i := 0;
    while i < a.Length
      invariant i <= a.Length
      invariant forall p, q :: 0 <= p < q < i ==> key(a[p]) >= key(a[q])
      invariant multiset(a[..]) == multiset(old(a[..]))
    {
      SinkLeft(a, i, key);
      i := i + 1;
    }
  }

  /** One filter step on arrays: a fresh filtered array when `on`, the same array otherwise. */
  method FilterStep(a: array<Lesson>, on: bool, p: Lesson -> bool) returns (b: array<Lesson>)
    ensures b[..] == Step(a[..], on, p)
    ensures on ==> fresh(b)
    ensures !on ==> b == a
  {
    if on {
      b := FilterArray(a, p);
    } else {
      b := a;
    }
  }

  /**
   * The `filteredLessons` memo. The filters build new arrays; the sort
   * works in place, so when no filter applies it reorders the fetched
   * array itself and returns that same array.
   */
  method FilteredLessons(lessons: array<Lesson>, term: string, category: string, tone: string, sortOption: string)
    returns (result: array<Lesson>)
    modifies lessons
    ensures multiset(result[..]) == multiset(Filtered(old(lessons[..]), term, category, tone))
    ensures sortOption == "newest" ==> SortedDesc(result[..], ByCreatedAt)
    ensures sortOption == "mostSaved" ==> SortedDesc(result[..], ByFavorites)
    ensures sortOption != "newest" && sortOption != "mostSaved" ==>
      result[..] == Filtered(old(lessons[..]), term, category, tone)
    ensures term == "" && category == "" && tone == "" ==> result == lessons
    ensures term != "" || category != "" || tone != "" ==> fresh(result) && lessons[..] == old(lessons[..])
  {
    var byTitle := FilterStep(lessons, term != "", TitleMatch(term));
    var byCategory := FilterStep(byTitle, category != "", CategoryMatch(category));
    result := FilterStep(byCategory, tone != "", ToneMatch(tone));
    assert result[..] == Filtered(lessons[..], term, category, tone);
    if sortOption == "newest" {
      SortInPlace(result, ByCreatedAt);
    } else if sortOption == "mostSaved" {
      SortInPlace(result, ByFavorites);
    }
  }

  /** Clamps an index into `0..n` the way `Array.prototype.slice` does; a negative one counts from the end. */
  function SliceIndex(i: int, n: nat): (r: nat)
    ensures r <= n
    ensures 0 <= i <= n ==> r == i
    ensures i > n ==> r == n
    ensures i < 0 ==> r == if n + i < 0 then 0 else n + i
  {
    if i < 0 then (if n + i < 0 then 0 else n + i) else if i > n then n else i
  }

  /** `s.slice(start, end)`. */
  function JsSlice<T>(s: seq<T>, start: int, end: int): (r: seq<T>)
    ensures |r| <= |s|
    ensures 0 <= start <= end <= |s| ==> r == s[start..end]
    ensures 0 <= start <= |s| <= end ==> r == s[start..]
  {
    var a := SliceIndex(start, |s|);
    var b := SliceIndex(end, |s|);
    if a < b then s[a..b] else []
  }

  /** The lessons of page `page`: `slice(page * 12 - 12, page * 12)`. */
  function Page<T>(s: seq<T>, page: int): (r: seq<T>)
    ensures page >= 1 ==> |r| <= LessonsPerPage
    ensures page >= 1 ==>
      var first := (page - 1) * LessonsPerPage;
      var last := page * LessonsPerPage;
      r == s[(if first < |s| then first else |s|)..(if last < |s| then last else |s|)]
    ensures page == 0 ==> r == []
  {
    JsSlice(s, page * LessonsPerPage - LessonsPerPage, page * LessonsPerPage)
  }

  /** `Math.ceil(n / 12)`. */
  function TotalPages(n: nat): (r: nat)
    ensures r * LessonsPerPage >= n
    ensures r > 0 ==> (r - 1) * LessonsPerPage < n
    ensures n == 0 <==> r == 0
  {
    (n + LessonsPerPage - 1) / LessonsPerPage
  }

  /** Pages `1..k` laid end to end. */
  function Pages<T>(s: seq<T>, k: nat): seq<T>
  {
    if k == 0 then [] else Pages(s, k - 1) + Page(s, k)
  }

  lemma {:induction false} PagesArePrefix<T>(s: seq<T>, k: nat)
    ensures Pages(s, k) == s[..if k * LessonsPerPage < |s| then k * LessonsPerPage else |s|]
  {
    if k > 0 {
      PagesArePrefix(s, k - 1);
      var a := if (k - 1) * LessonsPerPage < |s| then (k - 1) * LessonsPerPage else |s|;
      var b := if k * LessonsPerPage < |s| then k * LessonsPerPage else |s|;
      assert Page(s, k) == s[a..b];
      assert s[..a] + s[a..b] == s[..b];
    }
  }

  /** Pages 1 to `TotalPages` together are the whole list, in order. */
  lemma AllPagesCoverList<T>(s: seq<T>)
    ensures Pages(s, TotalPages(|s|)) == s
  {
    PagesArePrefix(s, TotalPages(|s|));
  }

  /** Every lesson is on exactly the page its index falls in. */
  lemma PageOfIndex<T>(s: seq<T>, i: nat)
    requires i < |s|
    ensures var p := i / LessonsPerPage + 1;
      1 <= p <= TotalPages(|s|) && Page(s, p)[i % LessonsPerPage] == s[i]
  {
  }

  /** Previous: `Math.max(prev - 1, 1)`. */
  function PrevPage(current: int): (r: int)
    ensures r >= 1
    ensures current > 1 ==> r == current - 1
    ensures current <= 1 ==> r == 1
  {
    if current - 1 > 1 then current - 1 else 1
  }

  /** Next: `Math.min(prev + 1, totalPages)`. */
  function NextPage(current: int, totalPages: nat): (r: int)
    ensures r <= totalPages
    ensures current < totalPages ==> r == current + 1
    ensures current >= totalPages ==> r == totalPages
  {
    if current + 1 < totalPages then current + 1 else totalPages
  }

  /** Previous undoes Next on every page but the last. */
  lemma PrevUndoesNext(current: int, totalPages: nat)
    requires 1 <= current < totalPages
    ensures PrevPage(NextPage(current, totalPages)) == current
  {
  }

  /** The `currentPage` state of the list and its three setters. */
  class Pager {
    var currentPage: int

    constructor ()
      ensures currentPage == 1
    {
      currentPage := 1;
    }

    method Previous()
      modifies this
      ensures currentPage == PrevPage(old(currentPage))
      ensures currentPage >= 1
    {
      currentPage := PrevPage(currentPage);
    }

    method Next(totalPages: nat)
      modifies this
      ensures currentPage == NextPage(old(currentPage), totalPages)
      ensures currentPage <= totalPages
    {
      currentPage := NextPage(currentPage, totalPages);
    }

    /** A numbered button: `setCurrentPage(idx + 1)`. */
    method Select(idx: nat)
      modifies this
      ensures currentPage == idx + 1
    {
      currentPage := idx + 1;
    }

    /** The lessons shown now. */
    function CurrentLessons(filtered: seq<Lesson>): (r: seq<Lesson>)
      reads this
      ensures currentPage >= 1 ==> |r| <= LessonsPerPage
    {
      Page(filtered, currentPage)
    }
  }

  /** Choosing an offered category alone never leaves the list empty. */
  lemma OfferedCategoryMatches(ls: seq<Lesson>, c: string)
    requires c in Categories(ls)
    ensures Filtered(ls, "", c, "") != []
  {
    var i :| 0 <= i < |ls| && ls[i].category == c;
    assert ls[i] in ls;
    assert ls[i] in Filtered(ls, "", c, "");
  }
}
