/**
 * The server: the three collections held in memory and one method per
 * modelled route, each answering with a status and updating the
 * collections the way the route's database calls do.
 *
 * The caller of a route behind `verifyJWT` is an `Option<Identity>`: None
 * when the bearer token is missing or fails verification. New `_id`s come
 * from the counter `nextId`.
 */
module Server {
  import opened Wrappers
  import opened Seqs
  import opened UpdateOps
  import opened Domain
  import opened Guards
  import opened LessonOps
  import opened Entitlements
  import opened Moderation
  import Queries

  /** The users collection as the routes keep it: fresh unique ids, one record per email, `user` always held. */
  predicate UsersWellFormed(users: seq<Stored<User>>, n: nat)
  {
    && IdsBelow(users, n)
    && UniqueIds(users)
    && UniqueEmails(users)
    && forall j :: 0 <= j < |users| ==> "user" in users[j].doc.role
  }

  /** A collection whose ids were all handed out before `n`, each once. */
  predicate IdsFresh<T(==)>(c: seq<Stored<T>>, n: nat)
  {
    IdsBelow(c, n) && UniqueIds(c)
  }

  /** Every lesson's counters agree with its membership lists. */
  predicate AllCountersAgree(ls: seq<Stored<Lesson>>)
  {
    forall j :: 0 <= j < |ls| ==> LikesConsistent(ls[j].doc) && FavoritesConsistent(ls[j].doc)
  }

  /** `updateOne({_id})` on the document at index `i`: its `_id` stays, its body is replaced. */
  function ReplaceAt<T>(c: seq<Stored<T>>, i: nat, doc: T): (r: seq<Stored<T>>)
    requires i < |c|
    ensures |r| == |c| && r[i] == Stored(c[i].id, doc)
    ensures forall j :: 0 <= j < |c| && j != i ==> r[j] == c[j]
  {
    c[i := Stored(c[i].id, doc)]
  }

  /** Two collections with the same ids in the same places. */
  predicate SameIds<T>(a: seq<Stored<T>>, b: seq<Stored<T>>)
  {
    |a| == |b| && forall j :: 0 <= j < |a| ==> a[j].id == b[j].id
  }

  lemma SameIdsKeepFresh<T>(a: seq<Stored<T>>, b: seq<Stored<T>>, n: nat)
    requires SameIds(a, b) && IdsFresh(a, n)
    ensures IdsFresh(b, n)
  {
    forall d | d in b ensures d.id < n {
      var j :| 0 <= j < |b| && b[j] == d;
      assert a[j] in a;
    }
  }

  lemma ReplaceKeepsFresh<T>(c: seq<Stored<T>>, i: nat, doc: T, n: nat)
    requires i < |c| && IdsFresh(c, n)
    ensures IdsFresh(ReplaceAt(c, i, doc), n)
  {
    SameIdsKeepFresh(c, ReplaceAt(c, i, doc), n);
  }

  lemma DeleteKeepsFresh<T>(c: seq<Stored<T>>, id: nat, n: nat)
    requires IdsFresh(c, n)
    ensures IdsFresh(DeleteOne(c, id), n)
    ensures FindId(DeleteOne(c, id), id).None?
  {
    DeleteOneRemovesId(c, id);
  }

  /** Inserting under the next id keeps the ids fresh and unique. */
  lemma InsertKeepsFresh<T>(c: seq<Stored<T>>, n: nat, doc: T)
    requires IdsFresh(c, n)
    ensures IdsFresh(c + [Stored(n, doc)], n + 1)
  {
    var r := c + [Stored(n, doc)];
    assert forall j :: 0 <= j < |c| ==> r[j] == c[j] && c[j] in c;
  }

  lemma FreshGrows<T>(c: seq<Stored<T>>, n: nat)
    requires IdsFresh(c, n)
    ensures IdsFresh(c, n + 1)
  {
  }

  lemma ReplaceKeepsAgreement(ls: seq<Stored<Lesson>>, i: nat, l: Lesson)
    requires i < |ls| && AllCountersAgree(ls)
    requires LikesConsistent(l) && FavoritesConsistent(l)
    ensures AllCountersAgree(ReplaceAt(ls, i, l))
  {
  }

  lemma DeleteKeepsAgreement(ls: seq<Stored<Lesson>>, id: nat)
    ensures AllCountersAgree(ls) ==> AllCountersAgree(DeleteOne(ls, id))
  {
    if AllCountersAgree(ls) {
      var r := DeleteOne(ls, id);
      forall j | 0 <= j < |r| ensures LikesConsistent(r[j].doc) && FavoritesConsistent(r[j].doc) {
        assert r[j] in r;
        var k :| 0 <= k < |ls| && ls[k] == r[j];
      }
    }
  }

  lemma GrantKeepsWellFormed(before: seq<Stored<User>>, after: seq<Stored<User>>, n: nat)
    requires UsersWellFormed(before, n) && OnlyRolesGrew(before, after)
    ensures UsersWellFormed(after, n)
  {
    forall j | 0 <= j < |before| ensures after[j].doc.email == before[j].doc.email {
      assert after[j].doc.(role := before[j].doc.role).email == after[j].doc.email;
    }
    SameIdsKeepFresh(before, after, n);
    forall j | 0 <= j < |after| ensures "user" in after[j].doc.role {
      GrowthKeepsRoles(before, after, j, "user");
    }
  }

  lemma DeleteKeepsWellFormed(users: seq<Stored<User>>, id: nat, n: nat)
    requires UsersWellFormed(users, n)
    ensures UsersWellFormed(DeleteOne(users, id), n)
  {
    DeleteKeepsFresh(users, id, n);
    match FindId(users, id)
    case None =>
    case Some(i) =>
      assert DeleteOne(users, id) == users[..i] + users[i + 1..];
      RemoveAtKeepsUsers(users, i);
  }

  lemma RemoveAtKeepsUsers(users: seq<Stored<User>>, i: nat)
    requires i < |users| && UniqueEmails(users)
    requires forall j :: 0 <= j < |users| ==> "user" in users[j].doc.role
    ensures var r := users[..i] + users[i + 1..];
      UniqueEmails(r) && forall j :: 0 <= j < |r| ==> "user" in r[j].doc.role
  {
    var r := users[..i] + users[i + 1..];
    assert forall j :: 0 <= j < |r| ==> r[j] == users[if j < i then j else j + 1];
  }

  lemma SignUpKeepsWellFormed(users: seq<Stored<User>>, n: nat, u: User)
    requires UsersWellFormed(users, n)
    requires FindEmail(users, u.email).None? && "user" in u.role
    ensures UsersWellFormed(users + [Stored(n, u)], n + 1)
  {
    var r := users + [Stored(n, u)];
    InsertKeepsFresh(users, n, u);
    forall a, b | 0 <= a < b < |r| ensures r[a].doc.email != r[b].doc.email {
      assert r[a] == users[a];
      if b < |users| {
        assert r[b] == users[b];
      }
    }
    forall j | 0 <= j < |r| ensures "user" in r[j].doc.role {
      if j < |users| {
        assert r[j] == users[j];
      }
    }
  }

  lemma LoginKeepsWellFormed(users: seq<Stored<User>>, n: nat, i: nat, now: int)
    requires UsersWellFormed(users, n) && i < |users|
    ensures UsersWellFormed(ReplaceAt(users, i, users[i].doc.(lastLoggedIn := now)), n)
  {
    ReplaceKeepsFresh(users, i, users[i].doc.(lastLoggedIn := now), n);
  }

  class Store {
    var users: seq<Stored<User>>
    var lessons: seq<Stored<Lesson>>
    var reports: seq<Stored<Report>>
    var nextId: nat

    /** The invariant every route keeps. */
    ghost predicate Valid()
      reads this
    {
      && UsersWellFormed(users, nextId)
      && IdsFresh(lessons, nextId)
      && IdsFresh(reports, nextId)
    }

    constructor ()
      ensures Valid()
      ensures users == [] && lessons == [] && reports == []
    {
      users := [];
      lessons := [];
      reports := [];
      nextId := 1;
    }

    /**
     * `POST /user`: a first login stores the user with role exactly
     * `['user']`; a later login only refreshes `last_loggedIn`.
     */
    method PostUser(name: string, email: string, image: string, now: int) returns (created: bool)
      requires Valid()
      modifies this
      ensures Valid()
      ensures created <==> FindEmail(old(users), email).None?
      ensures created ==>
        && users == old(users) + [Stored(old(nextId), User(name, email, image, ["user"], now, now))]
        && nextId == old(nextId) + 1
      ensures !created ==>
        var i := FindEmail(old(users), email).value;
        && users == ReplaceAt(old(users), i, old(users)[i].doc.(lastLoggedIn := now))
        && users[i].doc.role == old(users)[i].doc.role
        && nextId == old(nextId)
      ensures lessons == old(lessons) && reports == old(reports)
    {
      match FindEmail(users, email)
      case None =>
        var u := User(name, email, image, ["user"], now, now);
        SignUpKeepsWellFormed(users, nextId, u);
        users := users + [Stored(nextId, u)];
        nextId := nextId + 1;
        created := true;
      case Some(i) =>
        LoginKeepsWellFormed(users, nextId, i, now);
        users := ReplaceAt(users, i, users[i].doc.(lastLoggedIn := now));
        created := false;
    }

    /** `GET /user/role`: the stored role list, or `['user']` without a record; it always holds `user`. */
    method GetUserRole(caller: Option<Identity>) returns (s: Status, roles: seq<string>)
      requires Valid()
      ensures s == Unauthorized <==> caller.None?
      ensures s == Ok || s == Unauthorized
      ensures caller.Some? ==> roles == RolesOf(users, caller.value.email) && "user" in roles
      ensures caller.None? ==> roles == []
    {
      match caller
      case None =>
        s, roles := Unauthorized, [];
      case Some(who) =>
        s, roles := Ok, RolesOf(users, who.email);
    }

    /** `PATCH /manageUsers/promote/:id`: an admin adds `admin` to the user with that `_id`. */
    method PromoteUser(caller: Option<Identity>, id: nat) returns (s: Status)
      requires Valid()
      modifies this
      ensures Valid()
      ensures s == AdminCheck(old(users), caller)
      ensures users == if s == Ok then GrantById(old(users), id, "admin") else old(users)
      ensures lessons == old(lessons) && reports == old(reports) && nextId == old(nextId)
    {
      s := AdminCheck(users, caller);
      if s == Ok {
        var after := GrantById(users, id, "admin");
        GrantKeepsWellFormed(users, after, nextId);
        users := after;
      }
    }

    /** `DELETE /manageUsers/:id`. */
    method DeleteUser(caller: Option<Identity>, id: nat) returns (s: Status)
      requires Valid()
      modifies this
      ensures Valid()
      ensures s == AdminCheck(old(users), caller)
      ensures users == if s == Ok then DeleteOne(old(users), id) else old(users)
      ensures lessons == old(lessons) && reports == old(reports) && nextId == old(nextId)
    {
      s := AdminCheck(users, caller);
      if s == Ok {
        DeleteKeepsWellFormed(users, id, nextId);
        users := DeleteOne(users, id);
      }
    }

    /** `GET /reported-lessons`, over the open reports. */
    method GetReportedLessons(caller: Option<Identity>) returns (s: Status, groups: seq<ReportGroup>)
      ensures s == AdminCheck(users, caller)
      ensures s == Ok ==> groups == ReportGroups(reports, lessons)
      ensures s != Ok ==> groups == []
    {
      s := AdminCheck(users, caller);
      groups := if s == Ok then ReportGroups(reports, lessons) else [];
    }

    /** `GET /reported-lessons/:lessonId`. */
    method GetLessonReports(caller: Option<Identity>, id: nat) returns (s: Status, rs: seq<Stored<Report>>)
      ensures s == AdminCheck(users, caller)
      ensures s == Ok ==> rs == ReportsFor(reports, id)
      ensures s != Ok ==> rs == []
    {
      s := AdminCheck(users, caller);
      rs := if s == Ok then ReportsFor(reports, id) else [];
    }

    /** `DELETE /reported-lessons/:lessonId`: the lesson and all its reports go. */
    method DeleteReportedLesson(caller: Option<Identity>, id: nat) returns (s: Status)
      requires Valid()
      modifies this
      ensures Valid()
      ensures s == AdminCheck(old(users), caller)
      ensures lessons == if s == Ok then DeleteOne(old(lessons), id) else old(lessons)
      ensures reports == if s == Ok then RemoveReportsFor(old(reports), id) else old(reports)
      ensures s == Ok ==> ReportsFor(reports, id) == [] && FindId(lessons, id).None?
      ensures AllCountersAgree(old(lessons)) ==> AllCountersAgree(lessons)
      ensures users == old(users) && nextId == old(nextId)
    {
      s := AdminCheck(users, caller);
      if s == Ok {
        DeleteKeepsAgreement(lessons, id);
        DeleteKeepsFresh(lessons, id, nextId);
        RemovalPartitions(reports, id);
        FilterKeepsUniqueIds(reports, NotForLesson(id));
        lessons := DeleteOne(lessons, id);
        reports := RemoveReportsFor(reports, id);
      }
    }

    /** `PATCH /reported-lessons/:lessonId/ignore`: the lesson's reports are marked ignored, the lesson stays. */
    method IgnoreLessonReports(caller: Option<Identity>, id: nat) returns (s: Status)
      requires Valid()
      modifies this
      ensures Valid()
      ensures s == AdminCheck(old(users), caller)
      ensures reports == if s == Ok then IgnoreReportsFor(old(reports), id) else old(reports)
      ensures s == Ok ==> forall g :: g in ReportGroups(reports, lessons) ==> g.lessonId != id
      ensures users == old(users) && lessons == old(lessons) && nextId == old(nextId)
    {
      s := AdminCheck(users, caller);
      if s == Ok {
        IgnoreClearsQueue(reports, lessons, id);
        SameIdsKeepFresh(reports, IgnoreReportsFor(reports, id), nextId);
        reports := IgnoreReportsFor(reports, id);
      }
    }

    /** `GET /admin/manage-lessons`: the filtered list and the whole-collection counts. */
    method GetManageLessons(caller: Option<Identity>, category: string, accessLevel: string, flagged: string)
      returns (s: Status, list: seq<Stored<Lesson>>, stats: Queries.LessonStats)
      ensures s == AdminCheck(users, caller)
      ensures s == Ok ==> list == Queries.ManageLessons(lessons, category, accessLevel, flagged)
      ensures s == Ok ==> stats == Queries.Stats(lessons)
      ensures s != Ok ==> list == [] && stats == Queries.LessonStats(0, 0, 0)
    {
      s := AdminCheck(users, caller);
      if s == Ok {
        list := Queries.ManageLessons(lessons, category, accessLevel, flagged);
        stats := Queries.Stats(lessons);
      } else {
        list := [];
        stats := Queries.LessonStats(0, 0, 0);
      }
    }

    /** `PATCH /admin/lessons/:id/featured`. */
    method SetLessonFeatured(caller: Option<Identity>, id: nat, featured: bool) returns (s: Status)
      requires Valid()
      modifies this
      ensures Valid()
      ensures s == AdminCheck(old(users), caller)
      ensures var f := FindId(old(lessons), id);
        lessons == if s == Ok && f.Some? then ReplaceAt(old(lessons), f.value, SetFeatured(old(lessons)[f.value].doc, featured))
                   else old(lessons)
      ensures AllCountersAgree(old(lessons)) ==> AllCountersAgree(lessons)
      ensures users == old(users) && reports == old(reports) && nextId == old(nextId)
    {
      s := AdminCheck(users, caller);
      if s == Ok {
        match FindId(lessons, id)
        case None =>
        case Some(i) =>
          var l := SetFeatured(lessons[i].doc, featured);
          ReplaceKeepsFresh(lessons, i, l, nextId);
          lessons := ReplaceAt(lessons, i, l);
      }
    }

    /** `PATCH /admin/lessons/:id/reviewed`. */
    method SetLessonReviewed(caller: Option<Identity>, id: nat) returns (s: Status)
      requires Valid()
      modifies this
      ensures Valid()
      ensures s == AdminCheck(old(users), caller)
      ensures var f := FindId(old(lessons), id);
        lessons == if s == Ok && f.Some? then ReplaceAt(old(lessons), f.value, MarkReviewed(old(lessons)[f.value].doc))
                   else old(lessons)
      ensures AllCountersAgree(old(lessons)) ==> AllCountersAgree(lessons)
      ensures users == old(users) && reports == old(reports) && nextId == old(nextId)
    {
      s := AdminCheck(users, caller);
      if s == Ok {
        match FindId(lessons, id)
        case None =>
        case Some(i) =>
          var l := MarkReviewed(lessons[i].doc);
          ReplaceKeepsFresh(lessons, i, l, nextId);
          lessons := ReplaceAt(lessons, i, l);
      }
    }

    /** `DELETE /admin/lessons/:id`: only the lesson goes; its reports stay. */
    method AdminDeleteLesson(caller: Option<Identity>, id: nat) returns (s: Status)
      requires Valid()
      modifies this
      ensures Valid()
      ensures s == AdminCheck(old(users), caller)
      ensures lessons == if s == Ok then DeleteOne(old(lessons), id) else old(lessons)
      ensures AllCountersAgree(old(lessons)) ==> AllCountersAgree(lessons)
      ensures users == old(users) && reports == old(reports) && nextId == old(nextId)
    {
      s := AdminCheck(users, caller);
      if s == Ok {
        DeleteKeepsAgreement(lessons, id);
        DeleteKeepsFresh(lessons, id, nextId);
        lessons := DeleteOne(lessons, id);
      }
    }

    /** `POST /lessons`: the body is stored as sent, with `createdAt` set by the server. */
    method PostLesson(data: Lesson, now: int) returns (id: nat)
      requires Valid()
      modifies this
      ensures Valid()
      ensures id == old(nextId) && nextId == old(nextId) + 1
      ensures lessons == old(lessons) + [Stored(id, data.(createdAt := now))]
      ensures FindId(lessons, id) == Some(|old(lessons)|)
      ensures AllCountersAgree(old(lessons)) && LikesConsistent(data) && FavoritesConsistent(data) ==>
        AllCountersAgree(lessons)
      ensures users == old(users) && reports == old(reports)
    {
      id := nextId;
      FreshIdFound(lessons, id, data.(createdAt := now));
      InsertKeepsFresh(lessons, id, data.(createdAt := now));
      FreshGrows(users, nextId);
      FreshGrows(reports, nextId);
      lessons := lessons + [Stored(id, data.(createdAt := now))];
      nextId := nextId + 1;
    }

    /** `GET /lessons/most-saved`, ranked by favorites. */
    method GetMostSaved() returns (r: seq<Stored<Lesson>>)
      ensures r == Queries.MostSaved(lessons)
      ensures |r| <= 6 && multiset(r) <= multiset(lessons)
    {
      r := Queries.MostSaved(lessons);
    }

    /**
     * `GET /lessons/:id`: 401 without a caller, 404 for an absent lesson,
     * 403 for a premium lesson unless the caller's roles hold `premium`,
     * otherwise the lesson as stored.
     */
    method GetLesson(caller: Option<Identity>, id: nat) returns (s: Status, lesson: Option<Lesson>)
      ensures caller.None? ==> s == Unauthorized
      ensures caller.Some? && FindId(lessons, id).None? ==> s == NotFound
      ensures caller.Some? && FindId(lessons, id).Some? ==>
        s == PremiumCheck(lessons[FindId(lessons, id).value].doc, RolesOf(users, caller.value.email))
      ensures lesson.Some? <==> s == Ok
      ensures lesson.Some? ==> FindId(lessons, id).Some? && lesson.value == lessons[FindId(lessons, id).value].doc
    {
      match caller
      case None =>
        s, lesson := Unauthorized, None;
      case Some(who) =>
        match FindId(lessons, id)
        case None =>
          s, lesson := NotFound, None;
        case Some(i) =>
          s := PremiumCheck(lessons[i].doc, RolesOf(users, who.email));
          lesson := if s == Ok then Some(lessons[i].doc) else None;
    }

    /**
     * `PATCH /lessons/:id`: 401, then 404 for an absent lesson, then 403
     * unless the caller created it; otherwise the supplied fields are set.
     */
    method PatchLesson(caller: Option<Identity>, id: nat, patch: LessonPatch) returns (s: Status, updated: Option<Lesson>)
      requires Valid()
      modifies this
      ensures Valid()
      ensures caller.None? ==> s == Unauthorized
      ensures caller.Some? && FindId(old(lessons), id).None? ==> s == NotFound
      ensures caller.Some? && FindId(old(lessons), id).Some? ==>
        s == OwnerCheck(old(lessons)[FindId(old(lessons), id).value].doc, caller.value)
      ensures s != Ok ==> lessons == old(lessons) && updated.None?
      ensures s == Ok ==>
        var i := FindId(old(lessons), id).value;
        && lessons == ReplaceAt(old(lessons), i, ApplyPatch(old(lessons)[i].doc, patch))
        && updated == Some(lessons[i].doc)
      ensures AllCountersAgree(old(lessons)) ==> AllCountersAgree(lessons)
      ensures users == old(users) && reports == old(reports) && nextId == old(nextId)
    {
      updated := None;
      match caller
      case None =>
        s := Unauthorized;
      case Some(who) =>
        match FindId(lessons, id)
        case None =>
          s := NotFound;
        case Some(i) =>
          s := OwnerCheck(lessons[i].doc, who);
          if s == Ok {
            var l := ApplyPatch(lessons[i].doc, patch);
            ReplaceKeepsFresh(lessons, i, l, nextId);
            lessons := ReplaceAt(lessons, i, l);
            updated := Some(l);
          }
    }

    /** `DELETE /lessons/:id`: 401, 404, 403 unless the caller created it; otherwise that lesson alone goes. */
    method DeleteLesson(caller: Option<Identity>, id: nat) returns (s: Status)
      requires Valid()
      modifies this
      ensures Valid()
      ensures caller.None? ==> s == Unauthorized
      ensures caller.Some? && FindId(old(lessons), id).None? ==> s == NotFound
      ensures caller.Some? && FindId(old(lessons), id).Some? ==>
        s == OwnerCheck(old(lessons)[FindId(old(lessons), id).value].doc, caller.value)
      ensures lessons == if s == Ok then DeleteOne(old(lessons), id) else old(lessons)
      ensures s == Ok ==> |lessons| == |old(lessons)| - 1
      ensures AllCountersAgree(old(lessons)) ==> AllCountersAgree(lessons)
      ensures users == old(users) && reports == old(reports) && nextId == old(nextId)
    {
      match caller
      case None =>
        s := Unauthorized;
      case Some(who) =>
        match FindId(lessons, id)
        case None =>
          s := NotFound;
        case Some(i) =>
          s := OwnerCheck(lessons[i].doc, who);
          if s == Ok {
            DeleteKeepsAgreement(lessons, id);
            DeleteKeepsFresh(lessons, id, nextId);
            lessons := DeleteOne(lessons, id);
          }
    }

    /** `POST /lessons/:id/like`: 404 for an absent lesson, otherwise the like toggle. */
    method PostLike(id: nat, userId: string) returns (s: Status, updated: Option<Lesson>)
      requires Valid()
      modifies this
      ensures Valid()
      ensures s == Ok || s == NotFound
      ensures s == NotFound <==> FindId(old(lessons), id).None?
      ensures s == NotFound ==> lessons == old(lessons) && updated.None?
      ensures s == Ok ==>
        var i := FindId(old(lessons), id).value;
        && lessons == ReplaceAt(old(lessons), i, ToggleLike(old(lessons)[i].doc, userId))
        && updated == Some(lessons[i].doc)
      ensures AllCountersAgree(old(lessons)) ==> AllCountersAgree(lessons)
      ensures users == old(users) && reports == old(reports) && nextId == old(nextId)
    {
      match FindId(lessons, id)
      case None =>
        s, updated := NotFound, None;
      case Some(i) =>
        var l := ToggleLike(lessons[i].doc, userId);
        ReplaceKeepsFresh(lessons, i, l, nextId);
        if AllCountersAgree(lessons) {
          TogglesKeepConsistency(lessons[i].doc, userId);
          ReplaceKeepsAgreement(lessons, i, l);
        }
        lessons := ReplaceAt(lessons, i, l);
        s, updated := Ok, Some(l);
    }

    /** `POST /lessons/:id/favorite`: 404 for an absent lesson, otherwise the favorite toggle. */
    method PostFavorite(id: nat, userId: string) returns (s: Status, updated: Option<Lesson>)
      requires Valid()
      modifies this
      ensures Valid()
      ensures s == Ok || s == NotFound
      ensures s == NotFound <==> FindId(old(lessons), id).None?
      ensures s == NotFound ==> lessons == old(lessons) && updated.None?
      ensures s == Ok ==>
        var i := FindId(old(lessons), id).value;
        && lessons == ReplaceAt(old(lessons), i, ToggleFavorite(old(lessons)[i].doc, userId))
        && updated == Some(lessons[i].doc)
      ensures AllCountersAgree(old(lessons)) ==> AllCountersAgree(lessons)
      ensures users == old(users) && reports == old(reports) && nextId == old(nextId)
    {
      match FindId(lessons, id)
      case None =>
        s, updated := NotFound, None;
      case Some(i) =>
        var l := ToggleFavorite(lessons[i].doc, userId);
        ReplaceKeepsFresh(lessons, i, l, nextId);
        if AllCountersAgree(lessons) {
          TogglesKeepConsistency(lessons[i].doc, userId);
          ReplaceKeepsAgreement(lessons, i, l);
        }
        lessons := ReplaceAt(lessons, i, l);
        s, updated := Ok, Some(l);
    }

    /**
     * `POST /favorites/remove`: pulls the caller's uid and decrements the
     * counter whether or not the uid was there; `success` reports that a
     * lesson was modified, which is exactly that the lesson exists.
     */
    method PostRemoveFavorite(caller: Option<Identity>, lessonId: nat) returns (s: Status, success: bool)
      requires Valid()
      modifies this
      ensures Valid()
      ensures s == Unauthorized <==> caller.None?
      ensures s == Ok || s == Unauthorized
      ensures s == Unauthorized ==> lessons == old(lessons) && !success
      ensures s == Ok ==> (success <==> FindId(old(lessons), lessonId).Some?)
      ensures s == Ok && !success ==> lessons == old(lessons)
      ensures s == Ok && success ==>
        var i := FindId(old(lessons), lessonId).value;
        lessons == ReplaceAt(old(lessons), i, LessonOps.RemoveFavorite(old(lessons)[i].doc, caller.value.uid))
      ensures AllCountersAgree(old(lessons)) && success ==>
        (AllCountersAgree(lessons) <==>
         caller.value.uid in old(lessons)[FindId(old(lessons), lessonId).value].doc.favorites)
      ensures users == old(users) && reports == old(reports) && nextId == old(nextId)
    {
      success := false;
      match caller
      case None =>
        s := Unauthorized;
      case Some(who) =>
        s := Ok;
        match FindId(lessons, lessonId)
        case None =>
        case Some(i) =>
          var before := lessons;
          var l := LessonOps.RemoveFavorite(lessons[i].doc, who.uid);
          ReplaceKeepsFresh(lessons, i, l, nextId);
          if AllCountersAgree(lessons) {
            RemoveFavoriteConsistency(lessons[i].doc, who.uid);
            if who.uid in lessons[i].doc.favorites {
              ReplaceKeepsAgreement(lessons, i, l);
            }
          }
          lessons := ReplaceAt(lessons, i, l);
          assert lessons[i].doc == l;
          success := true;
    }

    /**
     * `POST /lessons/:id/comments`: the comment gets a fresh `_id` and is
     * sent back whether or not the lesson exists; an existing lesson gets it
     * appended.
     */
    method PostComment(lessonId: nat, userId: string, userName: string, text: string, now: int)
      returns (c: Comment)
      requires Valid()
      modifies this
      ensures Valid()
      ensures c == Comment(old(nextId), userId, userName, text, now) && nextId == old(nextId) + 1
      ensures var f := FindId(old(lessons), lessonId);
        lessons == if f.Some? then ReplaceAt(old(lessons), f.value, AppendComment(old(lessons)[f.value].doc, c))
                   else old(lessons)
      ensures AllCountersAgree(old(lessons)) ==> AllCountersAgree(lessons)
      ensures users == old(users) && reports == old(reports)
    {
      c := Comment(nextId, userId, userName, text, now);
      match FindId(lessons, lessonId) {
        case None =>
        case Some(i) =>
          var l := AppendComment(lessons[i].doc, c);
          ReplaceKeepsFresh(lessons, i, l, nextId);
          lessons := ReplaceAt(lessons, i, l);
      }
      FreshGrows(users, nextId);
      FreshGrows(lessons, nextId);
      FreshGrows(reports, nextId);
      nextId := nextId + 1;
    }

    /** `POST /lessons/:id/view`: 404 for an absent lesson, otherwise one more view. */
    method PostView(id: nat) returns (s: Status)
      requires Valid()
      modifies this
      ensures Valid()
      ensures s == Ok || s == NotFound
      ensures s == NotFound <==> FindId(old(lessons), id).None?
      ensures s == NotFound ==> lessons == old(lessons)
      ensures s == Ok ==>
        var i := FindId(old(lessons), id).value;
        lessons == ReplaceAt(old(lessons), i, RecordView(old(lessons)[i].doc))
      ensures AllCountersAgree(old(lessons)) ==> AllCountersAgree(lessons)
      ensures users == old(users) && reports == old(reports) && nextId == old(nextId)
    {
      match FindId(lessons, id)
      case None =>
        s := NotFound;
      case Some(i) =>
        var l := RecordView(lessons[i].doc);
        ReplaceKeepsFresh(lessons, i, l, nextId);
        lessons := ReplaceAt(lessons, i, l);
        s := Ok;
    }

    /** `GET /users/top-contributors`, grouped by creator email. */
    method GetTopContributors() returns (rows: seq<Queries.Contributor<string>>)
      ensures rows == Queries.TopContributors(lessons, users)
      ensures forall c :: c in rows ==> c.author.email == c.key && c.totalLessons > 0
      ensures forall t, u :: t in Queries.TopTallies(Queries.CreatorEmails(lessons), 5) && u in users && u.doc.email == t.key ==>
        Queries.Contributor(t.key, t.total, u.doc) in rows
    {
      rows := Queries.TopContributors(lessons, users);
    }

    /** `POST /lessonsReports`: the report is stored as sent. */
    method PostReport(data: Report) returns (id: nat)
      requires Valid()
      modifies this
      ensures Valid()
      ensures id == old(nextId) && nextId == old(nextId) + 1
      ensures reports == old(reports) + [Stored(id, data)]
      ensures ReportsFor(reports, data.lessonId) == ReportsFor(old(reports), data.lessonId) + [Stored(id, data)]
      ensures users == old(users) && lessons == old(lessons)
    {
      id := nextId;
      FilterAppend(reports, [Stored(id, data)], ForLesson(data.lessonId));
      InsertKeepsFresh(reports, id, data);
      FreshGrows(users, nextId);
      FreshGrows(lessons, nextId);
      reports := reports + [Stored(id, data)];
      nextId := nextId + 1;
    }

    /**
     * `POST /payment-success`: given the email of the retrieved checkout
     * session (None when retrieval fails), the first user with that email
     * gains `premium`.
     */
    method PostPaymentSuccess(sessionEmail: Option<string>) returns (s: Status)
      requires Valid()
      modifies this
      ensures Valid()
      ensures s == ServerError <==> sessionEmail.None?
      ensures s == Ok || s == ServerError
      ensures users == if s == Ok then GrantByEmail(old(users), sessionEmail.value, "premium") else old(users)
      ensures lessons == old(lessons) && reports == old(reports) && nextId == old(nextId)
    {
      match sessionEmail
      case None =>
        s := ServerError;
      case Some(email) =>
        var after := GrantByEmail(users, email, "premium");
        GrantKeepsWellFormed(users, after, nextId);
        users := after;
        s := Ok;
    }
  }
}
