/**
 * The moderation queue over the reports collection: the reports of one
 * lesson, their removal with the lesson, marking them ignored, and the
 * `GET /reported-lessons` aggregation that groups reports by lesson and
 * joins each group with a summary of its lesson.
 */
module Moderation {
  import opened Wrappers
  import opened Seqs
  import opened Domain

  function ForLesson(id: nat): Stored<Report> -> bool
  {
    (d: Stored<Report>) => d.doc.lessonId == id
  }

  function NotForLesson(id: nat): Stored<Report> -> bool
  {
    (d: Stored<Report>) => d.doc.lessonId != id
  }

  /** `find({lessonId})`: the reports of one lesson, in collection order. */
  function ReportsFor(reports: seq<Stored<Report>>, id: nat): (r: seq<Stored<Report>>)
    ensures forall d :: d in r ==> d in reports && d.doc.lessonId == id
    ensures forall d :: d in reports && d.doc.lessonId == id ==> d in r
    ensures IsSubsequence(r, reports)
  {
    FilterIsSubsequence(reports, ForLesson(id));
    Filter(reports, ForLesson(id))
  }

  /** `deleteMany({lessonId})`: every report of that lesson goes, every other stays in order. */
  function RemoveReportsFor(reports: seq<Stored<Report>>, id: nat): (r: seq<Stored<Report>>)
    ensures forall d :: d in r ==> d in reports && d.doc.lessonId != id
    ensures forall d :: d in reports && d.doc.lessonId != id ==> d in r
    ensures IsSubsequence(r, reports)
  {
    FilterIsSubsequence(reports, NotForLesson(id));
    Filter(reports, NotForLesson(id))
  }

  /** The removed reports are exactly the lesson's reports: the two parts add up to the whole. */
  lemma {:induction false} RemovalPartitions(reports: seq<Stored<Report>>, id: nat)
    ensures |ReportsFor(reports, id)| + |RemoveReportsFor(reports, id)| == |reports|
    ensures ReportsFor(RemoveReportsFor(reports, id), id) == []
    decreases |reports|
  {
    if reports != [] {
      RemovalPartitions(reports[1..], id);
      FilterFirst(reports, ForLesson(id));
      FilterFirst(reports, NotForLesson(id));
    }
    var rest := RemoveReportsFor(reports, id);
    assert forall i :: 0 <= i < |rest| ==> rest[i] in rest;
    FilterNone(rest, ForLesson(id));
  }

  function MarkIgnored(d: Stored<Report>, id: nat): Stored<Report>
  {
    if d.doc.lessonId == id then Stored(d.id, d.doc.(status := Some("ignored"))) else d
  }

  /** `updateMany({lessonId}, {$set: {status: 'ignored'}})`. */
  function IgnoreReportsFor(reports: seq<Stored<Report>>, id: nat): (r: seq<Stored<Report>>)
    ensures |r| == |reports|
    ensures forall i :: 0 <= i < |reports| ==>
      r[i].id == reports[i].id && r[i].doc.(status := reports[i].doc.status) == reports[i].doc
    ensures forall i :: 0 <= i < |reports| && reports[i].doc.lessonId == id ==>
      r[i].doc.status == Some("ignored")
    ensures forall i :: 0 <= i < |reports| && reports[i].doc.lessonId != id ==> r[i] == reports[i]
  {
    Map(reports, (d: Stored<Report>) => MarkIgnored(d, id))
  }

  lemma IgnoreIdempotent(reports: seq<Stored<Report>>, id: nat)
    ensures IgnoreReportsFor(IgnoreReportsFor(reports, id), id) == IgnoreReportsFor(reports, id)
  {
  }

  /** One row of the moderation queue: a lesson, how many reports name it, and its `$project`ed summary. */
  datatype ReportGroup = ReportGroup(
    lessonId: nat,
    reportCount: nat,
    title: string,
    category: string,
    accessLevel: string,
    creator: Creator)

  function LessonIdsOf(reports: seq<Stored<Report>>): (r: seq<nat>)
    ensures |r| == |reports|
    ensures forall i :: 0 <= i < |reports| ==> r[i] == reports[i].doc.lessonId
  {
    Map(reports, (d: Stored<Report>) => d.doc.lessonId)
  }

  /**
   * The groups for the lesson ids `keys`, in that order: `$sum: 1` per
   * group, `$lookup` of the lesson, and `$unwind`, which drops a group
   * whose lesson no longer exists.
   */
  function GroupsOf(keys: seq<nat>, reports: seq<Stored<Report>>, lessons: seq<Stored<Lesson>>): (r: seq<ReportGroup>)
    ensures forall g :: g in r ==> g.lessonId in keys && FindId(lessons, g.lessonId).Some?
    ensures forall g :: g in r ==> g.reportCount == |ReportsFor(reports, g.lessonId)|
    ensures forall g :: g in r ==>
      var l := lessons[FindId(lessons, g.lessonId).value].doc;
      g.title == l.title && g.category == l.category && g.accessLevel == l.accessLevel && g.creator == l.creator
    ensures forall k :: k in keys && FindId(lessons, k).Some? ==> exists g :: g in r && g.lessonId == k
    decreases |keys|
  {
    if keys == [] then []
    else
      var rest := GroupsOf(keys[1..], reports, lessons);
      assert forall k :: k in keys[1..] ==> k in keys;
      match FindId(lessons, keys[0])
      case None => rest
      case Some(i) =>
        var l := lessons[i].doc;
        var g := ReportGroup(keys[0], |ReportsFor(reports, keys[0])|, l.title, l.category, l.accessLevel, l.creator);
        [g] + rest
  }

  /** Distinct keys give distinct groups: `$group` emits each lesson id once. */
  lemma {:induction false} GroupsOfDistinct(keys: seq<nat>, reports: seq<Stored<Report>>, lessons: seq<Stored<Lesson>>)
    requires NoDup(keys)
    ensures DistinctLessons(GroupsOf(keys, reports, lessons))
    decreases |keys|
  {
    if keys != [] {
      NoDupTail(keys);
      GroupsOfDistinct(keys[1..], reports, lessons);
      var rest := GroupsOf(keys[1..], reports, lessons);
      match FindId(lessons, keys[0]) {
        case None =>
        case Some(i) =>
          var l := lessons[i].doc;
          var g := ReportGroup(keys[0], |ReportsFor(reports, keys[0])|, l.title, l.category, l.accessLevel, l.creator);
          assert GroupsOf(keys, reports, lessons) == [g] + rest;
          ConsDistinct(g, rest);
      }
    }
  }

  /** No two groups are for the same lesson. */
  predicate DistinctLessons(r: seq<ReportGroup>)
  {
    forall i, j :: 0 <= i < j < |r| ==> r[i].lessonId != r[j].lessonId
  }

  lemma ConsDistinct(g: ReportGroup, rest: seq<ReportGroup>)
    requires DistinctLessons(rest)
    requires forall h :: h in rest ==> h.lessonId != g.lessonId
    ensures DistinctLessons([g] + rest)
  {
    var r := [g] + rest;
    forall i, j | 0 <= i < j < |r| ensures r[i].lessonId != r[j].lessonId {
      assert r[j] == rest[j - 1] && rest[j - 1] in rest;
      if i > 0 {
        assert r[i] == rest[i - 1];
      }
    }
  }

  /** The tail of a duplicate-free list is duplicate-free and misses the head. */
  lemma NoDupTail(keys: seq<nat>)
    requires keys != []
    ensures NoDup(keys) ==> NoDup(keys[1..]) && keys[0] !in keys[1..]
  {
    if NoDup(keys) {
      forall i, j | 0 <= i < j < |keys[1..]| ensures keys[1..][i] != keys[1..][j] {
        assert keys[1..][i] == keys[i + 1] && keys[1..][j] == keys[j + 1];
      }
      forall j | 0 <= j < |keys[1..]| ensures keys[1..][j] != keys[0] {
        assert keys[1..][j] == keys[j + 1];
      }
    }
  }

  /**
   * `GET /reported-lessons` as the server runs it: every report counts,
   * including the ones an admin has marked ignored.
   */
  function ReportGroupsAsWritten(reports: seq<Stored<Report>>, lessons: seq<Stored<Lesson>>): (r: seq<ReportGroup>)
    ensures forall g :: g in r ==> FindId(lessons, g.lessonId).Some? && g.reportCount > 0
    ensures forall g :: g in r ==> g.reportCount == |ReportsFor(reports, g.lessonId)|
    ensures forall g :: g in r ==>
      var l := lessons[FindId(lessons, g.lessonId).value].doc;
      g.title == l.title && g.category == l.category && g.accessLevel == l.accessLevel && g.creator == l.creator
    ensures forall i, j :: 0 <= i < j < |r| ==> r[i].lessonId != r[j].lessonId
    ensures forall d :: d in reports && FindId(lessons, d.doc.lessonId).Some? ==>
      exists g :: g in r && g.lessonId == d.doc.lessonId
  {
    var keys := LessonIdsOf(reports);
    var r := GroupsOf(Distinct(keys), reports, lessons);
    GroupsOfDistinct(Distinct(keys), reports, lessons);
    assert forall d :: d in reports ==> d.doc.lessonId in keys by {
      forall d | d in reports ensures d.doc.lessonId in keys {
        var i :| 0 <= i < |reports| && reports[i] == d;
        assert keys[i] == d.doc.lessonId;
      }
    }
    assert forall g :: g in r ==> g.reportCount > 0 by {
      forall g | g in r ensures g.reportCount > 0 {
        var i :| 0 <= i < |keys| && keys[i] == g.lessonId;
        assert reports[i] in ReportsFor(reports, g.lessonId);
      }
    }
    r
  }

  /** A report still in the queue: not marked ignored. */
  predicate IsOpen(d: Stored<Report>)
  {
    d.doc.status != Some("ignored")
  }

  /** The moderation queue over open reports only, so that ignoring takes a lesson off it. */
  function ReportGroups(reports: seq<Stored<Report>>, lessons: seq<Stored<Lesson>>): (r: seq<ReportGroup>)
    ensures forall g :: g in r ==> FindId(lessons, g.lessonId).Some? && g.reportCount > 0
    ensures forall g :: g in r ==> g.reportCount == |ReportsFor(Filter(reports, IsOpen), g.lessonId)|
    ensures forall g :: g in r ==>
      var l := lessons[FindId(lessons, g.lessonId).value].doc;
      g.title == l.title && g.category == l.category && g.accessLevel == l.accessLevel && g.creator == l.creator
    ensures forall i, j :: 0 <= i < j < |r| ==> r[i].lessonId != r[j].lessonId
    ensures forall d :: d in reports && IsOpen(d) && FindId(lessons, d.doc.lessonId).Some? ==>
      exists g :: g in r && g.lessonId == d.doc.lessonId
  {
    ReportGroupsAsWritten(Filter(reports, IsOpen), lessons)
  }

  /** Ignoring changes only statuses, so each lesson keeps its number of reports. */
  lemma {:induction false} IgnoreKeepsCounts(reports: seq<Stored<Report>>, id: nat, k: nat)
    ensures |ReportsFor(IgnoreReportsFor(reports, id), k)| == |ReportsFor(reports, k)|
    decreases |reports|
  {
    if reports != [] {
      var ig := IgnoreReportsFor(reports, id);
      IgnoreKeepsCounts(reports[1..], id, k);
      assert ig[1..] == IgnoreReportsFor(reports[1..], id);
      FilterFirst(reports, ForLesson(k));
      FilterFirst(ig, ForLesson(k));
    }
  }

  lemma {:induction false} GroupsOfSameCounts(keys: seq<nat>, a: seq<Stored<Report>>, b: seq<Stored<Report>>, lessons: seq<Stored<Lesson>>)
    requires forall k :: k in keys ==> |ReportsFor(a, k)| == |ReportsFor(b, k)|
    ensures GroupsOf(keys, a, lessons) == GroupsOf(keys, b, lessons)
    decreases |keys|
  {
    if keys != [] {
      assert forall k :: k in keys[1..] ==> k in keys;
      GroupsOfSameCounts(keys[1..], a, b, lessons);
    }
  }

  /**
   * As written, `PATCH /reported-lessons/:id/ignore` leaves the queue the
   * admin page refetches exactly as it was: the ignored lesson is still
   * listed, with the same report count.
   */
  lemma IgnoreLeavesQueueAsWritten(reports: seq<Stored<Report>>, lessons: seq<Stored<Lesson>>, id: nat)
    ensures ReportGroupsAsWritten(IgnoreReportsFor(reports, id), lessons) == ReportGroupsAsWritten(reports, lessons)
  {
    var ig := IgnoreReportsFor(reports, id);
    assert LessonIdsOf(ig) == LessonIdsOf(reports);
    forall k | k in Distinct(LessonIdsOf(reports)) ensures |ReportsFor(ig, k)| == |ReportsFor(reports, k)| {
      IgnoreKeepsCounts(reports, id, k);
    }
    GroupsOfSameCounts(Distinct(LessonIdsOf(reports)), ig, reports, lessons);
  }

  /** A lesson that still exists and has a report stays in the as-written queue after an ignore. */
  lemma IgnoredLessonStaysQueued(reports: seq<Stored<Report>>, lessons: seq<Stored<Lesson>>, id: nat)
    requires exists i :: 0 <= i < |reports| && reports[i].doc.lessonId == id
    requires FindId(lessons, id).Some?
    ensures exists g :: g in ReportGroupsAsWritten(IgnoreReportsFor(reports, id), lessons) && g.lessonId == id
  {
    var ig := IgnoreReportsFor(reports, id);
    var i :| 0 <= i < |reports| && reports[i].doc.lessonId == id;
    var d := ig[i];
    assert d in ig && d.doc.lessonId == id;
    assert FindId(lessons, d.doc.lessonId).Some?;
    var q := ReportGroupsAsWritten(ig, lessons);
    assert exists g :: g in q && g.lessonId == d.doc.lessonId;
  }

  /** With the open-report queue, ignoring a lesson's reports takes it off the queue. */
  lemma IgnoreClearsQueue(reports: seq<Stored<Report>>, lessons: seq<Stored<Lesson>>, id: nat)
    ensures forall g :: g in ReportGroups(IgnoreReportsFor(reports, id), lessons) ==> g.lessonId != id
  {
    var ig := IgnoreReportsFor(reports, id);
    var open := Filter(ig, IsOpen);
    assert forall d :: d in open ==> d.doc.lessonId != id by {
      forall d | d in open ensures d.doc.lessonId != id {
        var i :| 0 <= i < |ig| && ig[i] == d;
      }
    }
    var keys := LessonIdsOf(open);
    assert forall k :: k in keys ==> k != id by {
      forall k | k in keys ensures k != id {
        var i :| 0 <= i < |keys| && keys[i] == k;
        assert open[i] in open;
      }
    }
  }

  /** After deleting a reported lesson, none of its reports remain and no queue row names it. */
  lemma DeletionClearsQueue(reports: seq<Stored<Report>>, lessons: seq<Stored<Lesson>>, id: nat)
    ensures ReportsFor(RemoveReportsFor(reports, id), id) == []
    ensures forall g :: g in ReportGroups(RemoveReportsFor(reports, id), lessons) ==> g.lessonId != id
  {
    RemovalPartitions(reports, id);
    var open := Filter(RemoveReportsFor(reports, id), IsOpen);
    var keys := LessonIdsOf(open);
    assert forall k :: k in keys ==> k != id by {
      forall k | k in keys ensures k != id {
        var i :| 0 <= i < |keys| && keys[i] == k;
        assert open[i] in open;
      }
    }
  }
}
