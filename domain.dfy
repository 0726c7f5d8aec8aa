/**
 * The documents of LessonFlow's three collections (users, lessons,
 * reports), the caller identity a verified bearer token yields, and the
 * HTTP statuses the handlers answer with.
 *
 * A field that a document may simply lack is represented by the value
 * every modelled operation treats the absence as: an absent array is `[]`
 * (`lesson.likes || []`, `$addToSet` and `$push` create it), an absent
 * counter is `0` (`|| 0`, `$inc` starts from 0), an absent flag is `false`
 * (`{isReported: true}` does not match it), an absent string is `""`.
 */
module Domain {
  import opened Wrappers
  import opened Seqs

  /** A document together with the `_id` the database assigned it. */
  datatype Stored<T> = Stored(id: nat, doc: T)

  /** A user record; `role` is the list of role tags (`user`, `premium`, `admin`). */
  datatype User = User(
    name: string,
    email: string,
    image: string,
    role: seq<string>,
    createdAt: int,
    lastLoggedIn: int)

  /** The denormalised author of a lesson. */
  datatype Creator = Creator(name: string, email: string, photoURL: string)

  datatype Comment = Comment(id: nat, userId: string, userName: string, text: string, createdAt: int)

  /**
   * A lesson document. `likes` and `favorites` hold Firebase user ids;
   * `authorId` is absent from every lesson the client creates.
   */
  datatype Lesson = Lesson(
    title: string,
    description: string,
    fullDescription: string,
    category: string,
    emotionalTone: string,
    accessLevel: string,
    creator: Creator,
    createdAt: int,
    authorId: Option<string>,
    likes: seq<string>,
    likesCount: int,
    favorites: seq<string>,
    favoritesCount: int,
    viewsCount: int,
    comments: seq<Comment>,
    isFeatured: bool,
    isReviewed: bool,
    isReported: bool)

  /** A report as the client files it; `status` is absent until an admin ignores it. */
  datatype Report = Report(
    lessonId: nat,
    reporterUserId: string,
    reportedUserEmail: string,
    reason: string,
    timestamp: int,
    status: Option<string>)

  /** What a verified Firebase ID token yields. */
  datatype Identity = Identity(email: string, uid: string)

  datatype Status = Ok | Unauthorized | Forbidden | PremiumRequired | NotFound | ServerError
  {
    /** The HTTP status code sent with the response. */
    function Code(): (c: nat)
      ensures 200 <= c < 600
      ensures c == 403 <==> this == Forbidden || this == PremiumRequired
    {
      match this
      case Ok => 200
      case Unauthorized => 401
      case Forbidden => 403
      case PremiumRequired => 403
      case NotFound => 404
      case ServerError => 500
    }
  }

  /**
   * The index of the first document whose `_id` is `id` (`findOne({_id})`),
   * or None when there is none.
   */
  function FindId<T>(c: seq<Stored<T>>, id: nat): (r: Option<nat>)
    ensures r.Some? ==> r.value < |c| && c[r.value].id == id
    ensures r.Some? ==> forall j :: 0 <= j < r.value ==> c[j].id != id
    ensures r.None? <==> forall j :: 0 <= j < |c| ==> c[j].id != id
    decreases |c|
  {
    if c == [] then None
    else if c[0].id == id then Some(0)
    else
      match FindId(c[1..], id)
      case None => None
      case Some(k) => Some(k + 1)
  }

  /** The index of the first user whose email is `email` (`findOne({email})`). */
  function FindEmail(users: seq<Stored<User>>, email: string): (r: Option<nat>)
    ensures r.Some? ==> r.value < |users| && users[r.value].doc.email == email
    ensures r.Some? ==> forall j :: 0 <= j < r.value ==> users[j].doc.email != email
    ensures r.None? <==> forall j :: 0 <= j < |users| ==> users[j].doc.email != email
    decreases |users|
  {
    if users == [] then None
    else if users[0].doc.email == email then Some(0)
    else
      match FindEmail(users[1..], email)
      case None => None
      case Some(k) => Some(k + 1)
  }

  /** `deleteOne({_id})`: removes the first document with that id, if any. */
  function DeleteOne<T>(c: seq<Stored<T>>, id: nat): (r: seq<Stored<T>>)
    ensures FindId(c, id).None? ==> r == c
    ensures FindId(c, id).Some? ==> |r| == |c| - 1
    ensures forall d :: d in c && d.id != id ==> d in r
    ensures forall d :: d in r ==> d in c
  {
    match FindId(c, id)
    case None => c
    case Some(i) =>
      assert c == c[..i] + [c[i]] + c[i + 1..];
      c[..i] + c[i + 1..]
  }

  /** The ids of a collection's documents. */
  function Ids<T>(c: seq<Stored<T>>): (r: seq<nat>)
    ensures |r| == |c|
    ensures forall i :: 0 <= i < |c| ==> r[i] == c[i].id
  {
    Map(c, (d: Stored<T>) => d.id)
  }

  /** Every document's `_id` was handed out before `n`. */
  predicate IdsBelow<T(==)>(c: seq<Stored<T>>, n: nat)
  {
    forall d :: d in c ==> d.id < n
  }

  /** A document inserted under a fresh `_id` is the one an `_id` lookup finds. */
  lemma FreshIdFound<T>(c: seq<Stored<T>>, n: nat, doc: T)
    requires IdsBelow(c, n)
    ensures FindId(c + [Stored(n, doc)], n) == Some(|c|)
  {
    var r := c + [Stored(n, doc)];
    forall j | 0 <= j < |c| ensures r[j].id != n {
      assert r[j] == c[j] && c[j] in c;
    }
    assert r[|c|] == Stored(n, doc);
  }

  /** No two documents share an `_id`. */
  predicate UniqueIds<T>(c: seq<Stored<T>>)
  {
    forall i, j :: 0 <= i < j < |c| ==> c[i].id != c[j].id
  }

  /** After `deleteOne` on a collection with unique ids, no document has that id. */
  lemma DeleteOneRemovesId<T>(c: seq<Stored<T>>, id: nat)
    requires UniqueIds(c)
    ensures UniqueIds(DeleteOne(c, id))
    ensures FindId(DeleteOne(c, id), id).None?
  {
    match FindId(c, id)
    case None =>
    case Some(i) =>
      RemoveAtKeepsUnique(c, i);
      assert DeleteOne(c, id) == c[..i] + c[i + 1..];
  }

  /** Dropping index `i` from a collection with unique ids keeps them unique and loses `c[i].id`. */
  lemma RemoveAtKeepsUnique<T>(c: seq<Stored<T>>, i: nat)
    requires UniqueIds(c) && i < |c|
    ensures var r := c[..i] + c[i + 1..];
      UniqueIds(r) && forall j :: 0 <= j < |r| ==> r[j].id != c[i].id
  {
    var r := c[..i] + c[i + 1..];
    assert |r| == |c| - 1;
    forall j | 0 <= j < |r| ensures r[j] == c[Skip(j, i)] {
      if j < i {
        assert r[j] == c[..i][j];
      } else {
        assert r[j] == c[i + 1..][j - i];
      }
    }
    forall j, k | 0 <= j < k < |r| ensures r[j].id != r[k].id {
      assert Skip(j, i) < Skip(k, i);
    }
    forall j | 0 <= j < |r| ensures r[j].id != c[i].id {
      if Skip(j, i) < i {
        assert c[Skip(j, i)].id != c[i].id;
      } else {
        assert c[i].id != c[Skip(j, i)].id;
      }
    }
  }

  /** The index in the original collection of position `j` once index `i` is deleted. */
  function Skip(j: nat, i: nat): nat
  {
    if j < i then j else j + 1
  }

  /** A filter keeps ids unique. */
  lemma {:induction false} FilterKeepsUniqueIds<T>(c: seq<Stored<T>>, p: Stored<T> -> bool)
    requires UniqueIds(c)
    ensures UniqueIds(Filter(c, p))
    decreases |c|
  {
    if c != [] {
      var tail := c[1..];
      assert forall j :: 0 <= j < |tail| ==> tail[j] == c[j + 1];
      FilterKeepsUniqueIds(tail, p);
      var ft := Filter(tail, p);
      forall j | 0 <= j < |ft| ensures ft[j].id != c[0].id {
        assert ft[j] in ft;
        var k :| 0 <= k < |tail| && tail[k] == ft[j];
      }
    }
  }

  /** No two user records share an email. */
  predicate UniqueEmails(users: seq<Stored<User>>)
  {
    forall i, j :: 0 <= i < j < |users| ==> users[i].doc.email != users[j].doc.email
  }

  /** Every lesson whose membership list agrees with its counter. */
  predicate LikesConsistent(l: Lesson)
  {
    NoDup(l.likes) && l.likesCount == |l.likes|
  }

  predicate FavoritesConsistent(l: Lesson)
  {
    NoDup(l.favorites) && l.favoritesCount == |l.favorites|
  }

  /** The option list of a category select: each category once, in order of first use. */
  function Categories(lessons: seq<Lesson>): (r: seq<string>)
    ensures NoDup(r)
    ensures forall c :: c in r <==> exists i :: 0 <= i < |lessons| && lessons[i].category == c
  {
    var cs := Map(lessons, (l: Lesson) => l.category);
    assert forall c :: c in cs <==> exists i :: 0 <= i < |lessons| && lessons[i].category == c;
    Distinct(cs)
  }

  /** The option list of an emotional-tone select. */
  function Tones(lessons: seq<Lesson>): (r: seq<string>)
    ensures NoDup(r)
    ensures forall t :: t in r <==> exists i :: 0 <= i < |lessons| && lessons[i].emotionalTone == t
  {
    var ts := Map(lessons, (l: Lesson) => l.emotionalTone);
    assert forall t :: t in ts <==> exists i :: 0 <= i < |lessons| && lessons[i].emotionalTone == t;
    Distinct(ts)
  }
}
