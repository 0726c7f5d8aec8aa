/**
 * The read-only lesson queries of the server: the admin's filtered
 * lesson list and its statistics, the home page's most-saved lessons and
 * the top-contributors aggregation.
 */
module Queries {
  import opened Wrappers
  import opened Seqs
  import opened Domain

  /** `.sort({createdAt: -1})`. */
  const ByCreatedAt: Stored<Lesson> -> int := (d: Stored<Lesson>) => d.doc.createdAt

  /** The corrected ranking of the most-saved lessons. */
  const ByFavorites: Stored<Lesson> -> int := (d: Stored<Lesson>) => d.doc.favoritesCount

  /**
   * `.sort({saves: -1})`: no lesson document has a `saves` field, so every
   * lesson sorts with the same (missing) key.
   */
  const BySaves: Stored<Lesson> -> int := (d: Stored<Lesson>) => 0

  /**
   * The query of `/admin/manage-lessons`: an empty category or access level
   * is no constraint (`if (category)`), and only the string `"true"` turns
   * on the reported-only filter.
   */
  function ManageMatch(category: string, accessLevel: string, flagged: string): Stored<Lesson> -> bool
  {
    (d: Stored<Lesson>) =>
      && (category == "" || d.doc.category == category)
      && (accessLevel == "" || d.doc.accessLevel == accessLevel)
      && (flagged == "true" ==> d.doc.isReported)
  }

  /** The lessons of `/admin/manage-lessons`: those matching the query, newest first. */
  function ManageLessons(ls: seq<Stored<Lesson>>, category: string, accessLevel: string, flagged: string)
    : (r: seq<Stored<Lesson>>)
    ensures SortedDesc(r, ByCreatedAt)
    ensures multiset(r) <= multiset(ls)
    ensures forall d :: d in r ==>
      && (category == "" || d.doc.category == category)
      && (accessLevel == "" || d.doc.accessLevel == accessLevel)
      && (flagged == "true" ==> d.doc.isReported)
    ensures forall d ::
      (&& d in ls
       && (category == "" || d.doc.category == category)
       && (accessLevel == "" || d.doc.accessLevel == accessLevel)
       && (flagged == "true" ==> d.doc.isReported))
      ==> d in r
  {
    var m := ManageMatch(category, accessLevel, flagged);
    FilterSubMultiset(ls, m);
    var r := SortDesc(Filter(ls, m), ByCreatedAt);
    assert forall d :: d in r <==> d in Filter(ls, m) by {
      assert multiset(r) == multiset(Filter(ls, m));
      forall d ensures d in r <==> d in Filter(ls, m) {
        assert d in r <==> d in multiset(r);
      }
    }
    r
  }

  /** Without a filter the admin sees every lesson, newest first. */
  lemma ManageUnfilteredListsAll(ls: seq<Stored<Lesson>>, flagged: string)
    requires flagged != "true"
    ensures ManageLessons(ls, "", "", flagged) == SortDesc(ls, ByCreatedAt)
  {
    FilterAll(ls, ManageMatch("", "", flagged));
  }

  /** The statistics block of `/admin/manage-lessons`, counted over the whole collection. */
  datatype LessonStats = LessonStats(publicCount: nat, privateCount: nat, flaggedCount: nat)

  function Stats(ls: seq<Stored<Lesson>>): (r: LessonStats)
    ensures r.publicCount + r.privateCount <= |ls|
    ensures r.flaggedCount <= |ls|
  {
    var pub := (d: Stored<Lesson>) => d.doc.accessLevel == "public";
    var priv := (d: Stored<Lesson>) => d.doc.accessLevel == "private";
    FilterDisjointCount(ls, pub, priv);
    LessonStats(
      |Filter(ls, pub)|,
      |Filter(ls, priv)|,
      |Filter(ls, (d: Stored<Lesson>) => d.doc.isReported)|)
  }

  /**
   * Each count equals the number of lessons the admin list shows under the
   * matching filter, whatever filter the list itself was requested with.
   */
  lemma StatsMatchListing(ls: seq<Stored<Lesson>>)
    ensures Stats(ls).publicCount == |ManageLessons(ls, "", "public", "")|
    ensures Stats(ls).privateCount == |ManageLessons(ls, "", "private", "")|
    ensures Stats(ls).flaggedCount == |ManageLessons(ls, "", "", "true")|
  {
    var pub := (d: Stored<Lesson>) => d.doc.accessLevel == "public";
    var priv := (d: Stored<Lesson>) => d.doc.accessLevel == "private";
    var flg := (d: Stored<Lesson>) => d.doc.isReported;
    FilterExt(ls, pub, ManageMatch("", "public", ""));
    FilterExt(ls, priv, ManageMatch("", "private", ""));
    FilterExt(ls, flg, ManageMatch("", "", "true"));
    SortedLength(Filter(ls, pub));
    SortedLength(Filter(ls, priv));
    SortedLength(Filter(ls, flg));
  }

  lemma SortedLength(s: seq<Stored<Lesson>>)
    ensures |SortDesc(s, ByCreatedAt)| == |s|
  {
    assert |multiset(SortDesc(s, ByCreatedAt))| == |multiset(s)|;
  }

  /**
   * `/lessons/most-saved` as the server runs it: sorting by the missing
   * `saves` field keeps the natural order, so the result is simply the
   * first six lessons of the collection.
   */
  function MostSavedAsWritten(ls: seq<Stored<Lesson>>): (r: seq<Stored<Lesson>>)
    ensures r == Take(ls, 6)
  {
    SortDescConstantKey(ls, BySaves);
    Take(SortDesc(ls, BySaves), 6)
  }

  /** The six lessons with the most favorites, most first. */
  function MostSaved(ls: seq<Stored<Lesson>>): (r: seq<Stored<Lesson>>)
    ensures |r| == if 6 < |ls| then 6 else |ls|
    ensures SortedDesc(r, ByFavorites)
    ensures multiset(r) <= multiset(ls)
    ensures forall x, y :: x in multiset(ls) - multiset(r) && y in r ==> x.doc.favoritesCount <= y.doc.favoritesCount
  {
    TopByKey(ls, ByFavorites, 6);
    var r := Take(SortDesc(ls, ByFavorites), 6);
    assert forall x :: ByFavorites(x) == x.doc.favoritesCount;
    r
  }

  /**
   * Seven lessons of which only the last was ever saved: the as-written
   * query leaves that lesson out while the corrected one lists it.
   */
  lemma MostSavedMissesSavedLesson(ls: seq<Stored<Lesson>>)
    requires |ls| == 7
    requires forall i :: 0 <= i < 6 ==> ls[i].doc.favoritesCount == 0
    requires ls[6].doc.favoritesCount == 5
    ensures ls[6] !in MostSavedAsWritten(ls)
    ensures ls[6] in MostSaved(ls)
  {
    assert MostSavedAsWritten(ls) == ls[..6];
    assert ls[6] !in ls[..6] by {
      forall i | 0 <= i < 6 ensures ls[..6][i] != ls[6] {
        assert ls[..6][i].doc.favoritesCount == 0;
      }
    }
    MostSavedKeepsLeader(ls, ls[6]);
  }

  /** A lesson saved more often than every other lesson is among the six most saved. */
  lemma MostSavedKeepsLeader(ls: seq<Stored<Lesson>>, x: Stored<Lesson>)
    requires x in ls
    requires forall y :: y in ls && y != x ==> y.doc.favoritesCount < x.doc.favoritesCount
    ensures x in MostSaved(ls)
  {
    var r := MostSaved(ls);
    var y := r[0];
    assert y in r;
    assert y in multiset(ls);
    assert y in ls;
    if y != x {
      assert y.doc.favoritesCount < x.doc.favoritesCount;
      assert !(x in multiset(ls) - multiset(r));
      assert x in multiset(ls);
      assert x in multiset(r);
    }
  }

  /** One `$group` result: a key and how many lessons carry it. */
  datatype Tally<K> = Tally(key: K, total: nat)

  /** `$group` with `$sum: 1`: one tally per distinct key, counting its occurrences. */
  function Tallies<K(==)>(keys: seq<K>): (r: seq<Tally<K>>)
    ensures forall t :: t in r ==> t.total == multiset(keys)[t.key] && t.total > 0
    ensures forall k :: k in keys ==> exists t :: t in r && t.key == k
    ensures forall i, j :: 0 <= i < j < |r| ==> r[i].key != r[j].key
  {
    var ds := Distinct(keys);
    var r := Map(ds, (k: K) => Tally(k, multiset(keys)[k]));
    assert forall t :: t in r ==> t.key in ds by {
      forall t | t in r ensures t.key in ds {
        var i :| 0 <= i < |r| && r[i] == t;
      }
    }
    assert forall k :: k in keys ==> exists t :: t in r && t.key == k by {
      forall k | k in keys ensures exists t :: t in r && t.key == k {
        var i :| 0 <= i < |ds| && ds[i] == k;
        assert r[i] in r;
      }
    }
    r
  }

  function ByTotal<K>(): Tally<K> -> int
  {
    (t: Tally<K>) => t.total
  }

  /** `$sort: {total: -1}` then `$limit: k`: the `k` largest tallies. */
  function TopTallies<K(==)>(keys: seq<K>, k: nat): (r: seq<Tally<K>>)
    ensures |r| == if k < |Tallies(keys)| then k else |Tallies(keys)|
    ensures multiset(r) <= multiset(Tallies(keys))
    ensures SortedDesc(r, ByTotal())
    ensures forall t, u :: t in multiset(Tallies(keys)) - multiset(r) && u in r ==> t.total <= u.total
  {
    TopByKey(Tallies(keys), ByTotal(), k);
    Take(SortDesc(Tallies(keys), ByTotal()), k)
  }

  /** One row of `/users/top-contributors` after the `$lookup` into users and `$unwind`. */
  datatype Contributor<K> = Contributor(key: K, totalLessons: nat, author: User)

  /** The `$unwind`ed rows of one tally: one per user the lookup matches. */
  function RowsOf<K>(t: Tally<K>, users: seq<Stored<User>>, matches: (K, User) -> bool): (r: seq<Contributor<K>>)
    ensures |r| <= |users|
    ensures forall c :: c in r ==> c.key == t.key && c.totalLessons == t.total && matches(t.key, c.author)
    ensures forall u :: u in users && matches(t.key, u.doc) ==>
      Contributor(t.key, t.total, u.doc) in r
  {
    var hit := Filter(users, (u: Stored<User>) => matches(t.key, u.doc));
    var r := Map(hit, (u: Stored<User>) => Contributor(t.key, t.total, u.doc));
    assert forall c :: c in r ==> exists u :: u in hit && c == Contributor(t.key, t.total, u.doc) by {
      forall c | c in r ensures exists u :: u in hit && c == Contributor(t.key, t.total, u.doc) {
        var i :| 0 <= i < |r| && r[i] == c;
        assert hit[i] in hit;
      }
    }
    assert forall u :: u in hit ==> Contributor(t.key, t.total, u.doc) in r by {
      forall u | u in hit ensures Contributor(t.key, t.total, u.doc) in r {
        var i :| 0 <= i < |hit| && hit[i] == u;
        assert r[i] == Contributor(t.key, t.total, u.doc);
      }
    }
    r
  }

  function Join<K>(ts: seq<Tally<K>>, users: seq<Stored<User>>, matches: (K, User) -> bool)
    : (r: seq<Contributor<K>>)
    ensures forall c :: c in r ==> Tally(c.key, c.totalLessons) in ts && matches(c.key, c.author)
    ensures forall t, u :: t in ts && u in users && matches(t.key, u.doc) ==>
      Contributor(t.key, t.total, u.doc) in r
    decreases |ts|
  {
    if ts == [] then []
    else
      var rest := Join(ts[1..], users, matches);
      assert forall t :: t in ts[1..] ==> t in ts;
      assert forall t :: t in ts ==> t == ts[0] || t in ts[1..];
      RowsOf(ts[0], users, matches) + rest
  }

  /** The grouping key as written: `$authorId`, absent from every client-created lesson. */
  function AuthorIds(ls: seq<Stored<Lesson>>): (r: seq<Option<string>>)
    ensures |r| == |ls|
    ensures forall i :: 0 <= i < |ls| ==> r[i] == ls[i].doc.authorId
  {
    Map(ls, (d: Stored<Lesson>) => d.doc.authorId)
  }

  /** The grouping key evidently intended: the creator's email. */
  function CreatorEmails(ls: seq<Stored<Lesson>>): (r: seq<string>)
    ensures |r| == |ls|
    ensures forall i :: 0 <= i < |ls| ==> r[i] == ls[i].doc.creator.email
  {
    Map(ls, (d: Stored<Lesson>) => d.doc.creator.email)
  }

  /**
   * `localField: '_id', foreignField: 'uid'`: no user document stores a
   * `uid`, and a lookup treats a missing field as null, so a null group key
   * matches every user and a string key matches none.
   */
  function UidMatches(key: Option<string>, u: User): bool
  {
    key.None?
  }

  function EmailMatches(key: string, u: User): bool
  {
    u.email == key
  }

  /** `/users/top-contributors` as the server runs it. */
  function TopContributorsAsWritten(ls: seq<Stored<Lesson>>, users: seq<Stored<User>>): (r: seq<Contributor<Option<string>>>)
    ensures forall c :: c in r ==> c.key.None?
  {
    Join(TopTallies(AuthorIds(ls), 5), users, UidMatches)
  }

  /**
   * With no lesson carrying an `authorId`, the as-written endpoint lists
   * every user, each credited with every lesson of the collection.
   */
  lemma TopContributorsCollapse(ls: seq<Stored<Lesson>>, users: seq<Stored<User>>)
    requires ls != []
    requires forall i :: 0 <= i < |ls| ==> ls[i].doc.authorId.None?
    ensures forall u :: u in users ==> Contributor(None, |ls|, u.doc) in TopContributorsAsWritten(ls, users)
    ensures forall c :: c in TopContributorsAsWritten(ls, users) ==> c.totalLessons == |ls|
  {
    var keys := AuthorIds(ls);
    assert forall i :: 0 <= i < |keys| ==> keys[i].None?;
    TopIsSingle(keys);
    var top := TopTallies(keys, 5);
    var r := Join(top, users, UidMatches);
    assert r == TopContributorsAsWritten(ls, users);
    forall u | u in users ensures Contributor(None, |ls|, u.doc) in r {
      assert UidMatches(Tally(None, |ls|).key, u.doc);
    }
  }

  /** The ranking of a single group is that group. */
  lemma TopIsSingle(keys: seq<Option<string>>)
    requires keys != []
    requires forall i :: 0 <= i < |keys| ==> keys[i].None?
    ensures Tally(None, |keys|) in TopTallies(keys, 5)
    ensures forall t :: t in TopTallies(keys, 5) ==> t == Tally(None, |keys|)
  {
    var t0 := Tally(None, |keys|);
    AllNoneTally(keys);
    var ts := Tallies(keys);
    assert |ts| >= 1;
    var top := TopTallies(keys, 5);
    assert |top| >= 1;
    var ms := multiset(ts);
    assert multiset(top) <= ms;
    forall t | t in top ensures t == t0 {
      assert t in multiset(top);
      assert t in ms;
      assert t in ts;
    }
    assert top[0] in top;
  }

  /** Keys that are all absent form one group holding every lesson. */
  lemma AllNoneTally(keys: seq<Option<string>>)
    requires keys != []
    requires forall i :: 0 <= i < |keys| ==> keys[i].None?
    ensures Tally(None, |keys|) in Tallies(keys)
    ensures forall t :: t in Tallies(keys) ==> t == Tally(None, |keys|)
  {
    MultisetOfConstant(keys, None);
    assert keys[0] in keys;
    forall t | t in Tallies(keys) ensures t == Tally(None, |keys|) {
      assert t.key in multiset(keys);
      var i :| 0 <= i < |keys| && keys[i] == t.key;
    }
  }

  lemma {:induction false} MultisetOfConstant<T>(s: seq<T>, x: T)
    requires forall i :: 0 <= i < |s| ==> s[i] == x
    ensures multiset(s)[x] == |s|
    decreases |s|
  {
    if s != [] {
      assert s == [s[0]] + s[1..];
      MultisetOfConstant(s[1..], x);
    }
  }

  /**
   * The corrected top contributors: the five creators with the most
   * lessons, each joined with the user record carrying their email.
   */
  function TopContributors(ls: seq<Stored<Lesson>>, users: seq<Stored<User>>): (r: seq<Contributor<string>>)
    ensures forall c :: c in r ==> c.author.email == c.key
    ensures forall c :: c in r ==> c.totalLessons == multiset(CreatorEmails(ls))[c.key] && c.totalLessons > 0
    ensures forall c :: c in r ==> Tally(c.key, c.totalLessons) in TopTallies(CreatorEmails(ls), 5)
    ensures forall t, u :: t in TopTallies(CreatorEmails(ls), 5) && u in users && u.doc.email == t.key ==>
      Contributor(t.key, t.total, u.doc) in r
  {
    var top := TopTallies(CreatorEmails(ls), 5);
    assert forall t :: t in top ==> t in Tallies(CreatorEmails(ls)) by {
      forall t | t in top ensures t in Tallies(CreatorEmails(ls)) {
        assert t in multiset(top);
      }
    }
    Join(top, users, EmailMatches)
  }
}
