# LessonFlow core in Dafny

LessonFlow is a life-lessons sharing site. An Express server keeps three
MongoDB collections: `users`, `lessons` and `reports`. A React client lists,
filters and pages the public lessons and the caller's favorites. This project
models four parts of it:

- the server's route handlers. `Server.Store` holds the three collections, plus
  a counter that hands out fresh `_id`s, and has one method per route. Each
  method states the status it answers with and the whole new state of the
  collections.
- the pure pieces behind those handlers, as functions with lemmas beside them:
  - the guards (`verifyJWT`, `verifyAdmin`, the premium guard of a lesson
    read, the creator check);
  - the MongoDB update operators the handlers use, on one document
    (`$addToSet`, `$pull`, `$inc`, `$push`, `$set`);
  - the admin moderation queue and its aggregation;
  - the manage-lessons query and its counters;
  - the most-saved and top-contributors reads.
- the public lesson list of the client: search, the category and tone filters,
  the in-place `Array.prototype.sort`, pagination by twelve, and the
  Previous/Next clamps.
- the favorites filter of the client dashboard and the lesson document that
  the add-lesson form builds.

How the model represents the source:

- A collection is a `seq<Stored<T>>`, where `Stored` is an `_id` plus a
  document, kept in natural (insertion) order.
  - `findOne` is the first match.
  - `find(...).sort(...)` is a descending insertion sort that keeps equal keys
    in natural order. MongoDB leaves the order of equal keys unspecified, so this
    is one order the server may return, not the only one.
  - `limit(k)` is a prefix.
- A field the source may leave absent takes the value its readers and update
  operators give it: `[]`, `0`, `false` or `None`. `role || ['user']`, `$inc`
  on a missing counter and `$push` to a missing array all treat the field
  that way.
- The verified token is an `Option<Identity>` parameter (`None` means a 401).
- The Stripe checkout session reaches `/payment-success` as its customer email
  (`None` means the retrieval failed).
- Clock readings are `int` parameters.

Modules: `Wrappers`, `Seqs` (sequence library), `UpdateOps` (update
operators), `Domain` (documents and lookups), `Guards`, `LessonOps`,
`Entitlements`, `Moderation`, `Queries`, `Server`, `AddLesson`,
`PublicLessons`, `MyFavorites`.

The model follows the code wherever the code and the design description
disagree, except on three routes whose code is wrong (see "## Findings"). On
those, `Server.Store` serves the corrected queries, and the as-written queries
are modelled beside them:

- The premium guard of `GET /lessons/:id` admits only the `premium` role. An
  admin without it gets 403 (`Guards.AdminIsNotPremium`).
- A report has no `status` until it is ignored. No code writes an `open`
  status.
- `DELETE /admin/lessons/:id` deletes only the lesson and leaves its reports.
  `DELETE /reported-lessons/:lessonId` deletes both.
- `POST /lessons/:id/comments` answers success even when the lesson does not
  exist.
- `POST /favorites/remove` decrements `favoritesCount` even when the caller
  was not a favoriter. It then breaks the rule that the counter equals the
  list's length (`LessonOps.RemoveFavoriteConsistency`). This is kept as
  written.

## Model

| member | source | states |
|---|---|---|
| Domain.Status.Code | backend/index.js:40-53 | every status is an HTTP code in 200..599; the code is 403 exactly for the forbidden and premium-required answers |
| Domain.FindId | backend/index.js:427-429 | `findOne({_id})`: the first index holding the id; None exactly when no document has it |
| Domain.FindEmail | backend/index.js:76 | `findOne({email})`: the first user with the email; None exactly when no user has it |
| Domain.DeleteOne | backend/index.js:330-332 | `deleteOne({_id})`: one document fewer when the id exists, the collection unchanged otherwise, every other document kept |
| Domain.Ids | backend/index.js:159-161 | the `_id`s of a collection, position by position |
| Domain.FreshIdFound | backend/index.js:342 | after `insertOne` with an id above every stored id, `findOne` finds the new document at the end |
| Domain.DeleteOneRemovesId | backend/index.js:226 | with unique ids, after `deleteOne` no document has that id and the ids stay unique |
| Domain.FilterKeepsUniqueIds | backend/index.js:227 | `deleteMany` keeps ids unique |
| Domain.Categories | frontend/src/pages/PublicLessons_v2.jsx:70 | `[...new Set(lessons.map(l => l.category))]`: duplicate-free, holding exactly the categories that occur |
| Domain.Tones | frontend/src/pages/PublicLessons_v2.jsx:71 | the same for emotional tones |
| Seqs.Filter | frontend/src/pages/PublicLessons_v2.jsx:33-43 | `Array.prototype.filter`: no longer than the input; an element is kept exactly when it is in the input and passes |
| Seqs.Map | backend/index.js:240-243 | element-wise image, same length |
| Seqs.Distinct | frontend/src/pages/PublicLessons_v2.jsx:70 | `new Set` order: duplicate-free, with the same elements as the input |
| Seqs.Take | backend/index.js:351 | `limit(k)`: the first `k` documents, or all of them |
| Seqs.Insert | frontend/src/pages/PublicLessons_v2.jsx:47-53 | inserting into a descending list keeps it descending and adds exactly the element |
| Seqs.SortDesc | backend/index.js:263-266 | `sort({key: -1})`: descending by the key and a permutation of the input |
| Seqs.PrependSorted | backend/index.js:263-266 | a head no smaller than the first element keeps the list descending |
| Seqs.FilterIsSubsequence | frontend/src/pages/Dashboard/MyFavorites.jsx:35-40 | a filter keeps the input's order |
| Seqs.FilterAll | frontend/src/pages/PublicLessons_v2.jsx:30 | a predicate that holds everywhere keeps the list as it is |
| Seqs.FilterCommutes | frontend/src/pages/PublicLessons_v2.jsx:38-44 | two filters applied in either order give the same list |
| Seqs.FilterFuse | frontend/src/pages/Dashboard/MyFavorites.jsx:35-40 | filtering by `p` then `q` is filtering once by `p && q` |
| Seqs.FilterFirst | frontend/src/pages/PublicLessons_v2.jsx:33 | the filter of a list whose head passes starts with that head |
| Seqs.TopByKey | backend/index.js:634-635 | sort-then-limit gives `min(k, n)` elements, descending, drawn from the input, none smaller than any element left out |
| Seqs.SortDescConstantKey | backend/index.js:350 | sorting by a key that is the same everywhere leaves the order unchanged |
| Seqs.FilterSubMultiset | frontend/src/pages/PublicLessons_v2.jsx:33-43 | a filter's result is a sub-multiset of its input |
| Seqs.FilterExt | frontend/src/pages/Dashboard/MyFavorites.jsx:37-38 | predicates that agree everywhere filter alike |
| Seqs.FilterNone | backend/index.js:227 | a predicate that fails everywhere leaves nothing |
| Seqs.FilterDisjointCount | backend/index.js:269-274 | counts under two disjoint predicates sum to at most the length |
| UpdateOps.AddToSet | backend/index.js:147-150 | `$addToSet`: the list unchanged when the value is there, otherwise extended by it |
| UpdateOps.AddToSetIdempotent | backend/index.js:149 | adding the same value twice is adding it once |
| UpdateOps.Pull | backend/index.js:531 | `$pull`: every copy of the value goes, every other element stays in order |
| UpdateOps.PullFacts | backend/index.js:531 | `$pull` never lengthens the list, and shortens it by the value's count |
| UpdateOps.PullAppended | backend/index.js:531-537 | pulling a value just appended to a list without it restores the list |
| UpdateOps.AddBackPulled | backend/index.js:531-537 | in a duplicate-free list, pulling then re-adding a member gives the same multiset |
| UpdateOps.PullSplit | backend/index.js:531 | pulling a value that occurs once, between two parts without it, leaves the two parts joined |
| UpdateOps.NoDupSplit | backend/index.js:537 | in a duplicate-free list an element appears nowhere else |
| UpdateOps.FilterAppend | backend/index.js:584 | filtering a concatenation concatenates the filters |
| UpdateOps.FilterDropCount | backend/index.js:531 | a filter drops exactly the failing copies of a value |
| UpdateOps.FilterNoDup | backend/index.js:531 | a filter keeps a list duplicate-free |
| Guards.RolesOf | backend/index.js:436-440 | the caller's stored role list, or `['user']` when no user has their email |
| Guards.AdminCheck | backend/index.js:37-55 | `verifyJWT` then `verifyAdmin`: 401 exactly without an identity, 200 exactly when the first user with the email holds `admin`, 403 otherwise |
| Guards.PremiumCheck | backend/index.js:443-447 | 403 exactly for a premium lesson and roles without `premium` |
| Guards.OwnerCheck | backend/index.js:465-466 | 200 exactly when the caller's email is the creator's |
| Guards.AdminIsNotPremium | backend/index.js:443 | any role list that holds `admin` but not `premium` is refused a premium lesson |
| Guards.NoRecordNoPremium | backend/index.js:440-447 | a caller with no user record is refused a premium lesson |
| LessonOps.Toggle | backend/index.js:524-539 | a member is pulled and the counter decremented; a non-member is appended and the counter incremented; nobody else's membership changes |
| LessonOps.ToggleKeepsAgreement | backend/index.js:524-539 | a counter equal to the length of a duplicate-free list stays equal after a toggle |
| LessonOps.NoDupCountOne | backend/index.js:531 | a member of a duplicate-free list occurs once |
| LessonOps.ToggleTwice | backend/index.js:524-539 | toggling twice restores the counter and the members; for a non-member it restores the list itself |
| LessonOps.ToggleLike | backend/index.js:515-545 | the like toggle changes only `likes` and `likesCount` |
| LessonOps.ToggleFavorite | backend/index.js:548-578 | the favorite toggle changes only `favorites` and `favoritesCount` |
| LessonOps.LikeTwice | backend/index.js:515-545 | liking twice restores the count and the likers |
| LessonOps.FavoriteTwice | backend/index.js:548-578 | saving twice restores the count and the savers |
| LessonOps.TogglesKeepConsistency | backend/index.js:524-572 | both toggles keep both counters equal to their lists' lengths |
| LessonOps.RemoveFavorite | backend/index.js:411-414 | pulls the uid and decrements the counter whether or not the uid was there; nothing else changes |
| LessonOps.RemoveFavoriteConsistency | backend/index.js:411-414 | the removal keeps the counter equal to the list exactly when the caller was a favoriter, and otherwise leaves it one below |
| LessonOps.RecordView | backend/index.js:616-619 | one more view, nothing else changes |
| LessonOps.AppendComment | backend/index.js:601-604 | the comment goes last, the earlier ones stay, nothing else changes |
| LessonOps.SetFeatured | backend/index.js:298-301 | `isFeatured` takes the requested value, nothing else changes |
| LessonOps.MarkReviewed | backend/index.js:314-317 | `isReviewed` becomes true, nothing else changes |
| LessonOps.ApplyPatch | backend/index.js:468-471 | every supplied field is overwritten and every other field kept |
| LessonOps.PatchIdempotent | backend/index.js:468-471 | the same edit twice is the edit once; the empty edit changes nothing |
| Entitlements.AddRoleAt | backend/index.js:149 | `$addToSet` on one user's roles, nobody else touched |
| Entitlements.GrantById | backend/index.js:147-150 | only role lists grow; no user with the id means no change; otherwise that user holds the role and nobody else changes |
| Entitlements.GrantByEmail | backend/index.js:705-708 | the same for the first user with the email |
| Entitlements.FindIdAfterGrowth | backend/index.js:147-150 | a grant moves no id, so `_id` lookups find the same user |
| Entitlements.FindEmailAfterGrowth | backend/index.js:705-708 | a grant moves no email, so email lookups find the same user |
| Entitlements.GrantByIdIdempotent | backend/index.js:147-150 | promoting twice is promoting once |
| Entitlements.GrantByEmailIdempotent | backend/index.js:705-708 | confirming a payment twice grants once |
| Entitlements.GrowthKeepsRoles | backend/index.js:147-150 | every role held before a grant is still held after it |
| Moderation.ReportsFor | backend/index.js:214 | `find({lessonId})`: exactly the reports for the lesson, in order |
| Moderation.RemoveReportsFor | backend/index.js:227 | `deleteMany({lessonId})`: exactly the other reports, in order |
| Moderation.RemovalPartitions | backend/index.js:226-227 | removed and kept reports add up to all reports; none for the lesson is left |
| Moderation.IgnoreReportsFor | backend/index.js:240-243 | `updateMany` sets `status: 'ignored'` on exactly the lesson's reports, ids and other fields kept |
| Moderation.IgnoreIdempotent | backend/index.js:240-243 | ignoring twice is ignoring once |
| Moderation.LessonIdsOf | backend/index.js:172 | the `$group` key of every report, position by position |
| Moderation.GroupsOf | backend/index.js:170-200 | one group per key whose lesson exists (`$unwind` drops the rest), counting that key's reports and carrying the lesson's projected fields |
| Moderation.GroupsOfDistinct | backend/index.js:171-175 | `$group` emits each lesson id once: distinct keys give groups for distinct lessons |
| Moderation.ReportGroupsAsWritten | backend/index.js:167-205 | the queue as written: one group per reported existing lesson, with a positive count of all its reports, ignored ones included |
| Moderation.ReportGroups | backend/index.js:167-205 | the corrected queue: one group per existing lesson with an open report, ids distinct, each count the number of that lesson's open reports, and the projected title, category, access level and creator copied from the lesson |
| Moderation.IgnoreKeepsCounts | backend/index.js:240-243 | ignoring changes no lesson's report count |
| Moderation.GroupsOfSameCounts | backend/index.js:170-200 | report sets with equal per-lesson counts give equal groups |
| Moderation.IgnoreLeavesQueueAsWritten | backend/index.js:233-247 | as written, an ignore leaves the queue exactly as it was |
| Moderation.IgnoredLessonStaysQueued | frontend/src/pages/Dashboard/ReportedLessons.jsx:22-25 | as written, a reported existing lesson is still queued right after its reports are ignored |
| Moderation.IgnoreClearsQueue | backend/index.js:233-247 | in the corrected queue, an ignored lesson is no longer queued |
| Moderation.DeletionClearsQueue | backend/index.js:219-231 | after deleting a reported lesson its reports are gone and it is no longer queued |
| Queries.ManageLessons | backend/index.js:257-266 | descending by `createdAt`; a lesson is listed exactly when it meets each non-empty filter, with `flagged` counting only as `'true'` |
| Queries.ManageUnfilteredListsAll | backend/index.js:257-261 | without filters every lesson is listed, newest first |
| Queries.Stats | backend/index.js:269-277 | public plus private and flagged are each at most the number of lessons |
| Queries.StatsMatchListing | backend/index.js:259-277 | each counter is the length of the listing under the matching filter |
| Queries.SortedLength | backend/index.js:263-266 | sorting keeps the length |
| Queries.MostSavedAsWritten | backend/index.js:347-355 | as written, the sort key `saves` is never stored, so every key ties; with ties in natural order the result is the first six lessons |
| Queries.MostSaved | backend/index.js:347-355 | corrected: `min(6, n)` lessons, descending by `favoritesCount`, none ranked below one left out |
| Queries.MostSavedMissesSavedLesson | backend/index.js:349-351 | with six unsaved lessons before one saved five times, the as-written result (ties in natural order) omits the saved one and the corrected result holds it |
| Queries.MostSavedKeepsLeader | backend/index.js:349-351 | the corrected ranking always includes a lesson saved more often than every other lesson |
| Queries.Tallies | backend/index.js:629-632 | `$group` with `$sum: 1`: one tally per distinct key, equal to the key's number of occurrences |
| Queries.TopTallies | backend/index.js:634-635 | `$sort` then `$limit`: the largest `min(k, n)` tallies, descending |
| Queries.RowsOf | backend/index.js:636-644 | `$lookup` then `$unwind` for one tally: one row per matching user, carrying the tally |
| Queries.Join | backend/index.js:636-644 | every row pairs a tally with a matching user, and every such pair is a row |
| Queries.AuthorIds | backend/index.js:630 | the `authorId` of every lesson, position by position (never written, so all None) |
| Queries.CreatorEmails | backend/index.js:630 | the creator email of every lesson, position by position |
| Queries.TopContributorsAsWritten | backend/index.js:625-649 | as written: every row's key is the missing `authorId` |
| Queries.TopContributorsCollapse | backend/index.js:628-644 | as written, with no `authorId` stored, every user appears credited with all the lessons |
| Queries.TopIsSingle | backend/index.js:634-635 | with every key missing, the top five is the one all-lessons tally |
| Queries.AllNoneTally | backend/index.js:629-632 | with every key missing there is one tally, of all the lessons |
| Queries.MultisetOfConstant | backend/index.js:631 | a constant list of length n counts its value n times |
| Queries.TopContributors | backend/index.js:625-649 | corrected: keyed by creator email, each row's user has that email, and its total is the number of lessons with that creator, drawn from the top five tallies; every top-five tally is listed, once for each user with that email |
| Server.ReplaceAt | backend/index.js:468-471 | one document's body replaced, its id and every other document kept |
| Server.SameIdsKeepFresh | backend/index.js:240-243 | a rewrite that keeps ids keeps them fresh |
| Server.ReplaceKeepsFresh | backend/index.js:298-301 | replacing a body keeps ids fresh |
| Server.DeleteKeepsFresh | backend/index.js:330-332 | deleting keeps ids fresh |
| Server.InsertKeepsFresh | backend/index.js:342 | inserting under the next id keeps ids fresh |
| Server.FreshGrows | backend/index.js:593 | raising the id counter keeps ids fresh |
| Server.ReplaceKeepsAgreement | backend/index.js:529-538 | replacing one lesson with a consistent one keeps every counter consistent |
| Server.DeleteKeepsAgreement | backend/index.js:497-499 | deleting keeps every counter consistent |
| Server.GrantKeepsWellFormed | backend/index.js:147-150 | a role grant keeps user ids fresh and unique, emails unique and `user` in every role list |
| Server.DeleteKeepsWellFormed | backend/index.js:159-161 | deleting a user keeps the users well formed |
| Server.RemoveAtKeepsUsers | backend/index.js:159-161 | dropping index i keeps every other user |
| Server.SignUpKeepsWellFormed | backend/index.js:105-106 | storing a new email with `['user']` under the next id keeps the users well formed |
| Server.LoginKeepsWellFormed | backend/index.js:96-102 | refreshing `last_loggedIn` keeps the users well formed |
| Server.Store.constructor | backend/index.js:68-71 | three empty collections satisfying the invariant |
| Server.Store.PostUser | backend/index.js:84-108 | a new email is appended with roles exactly `['user']`; a known email only gets `last_loggedIn` refreshed, its roles kept |
| Server.Store.GetUserRole | backend/index.js:111-115 | 401 exactly without a caller; otherwise the stored roles or `['user']`, which always hold `user` |
| Server.Store.PromoteUser | backend/index.js:140-154 | the admin check's status; on 200 the users become `GrantById(..., 'admin')`, otherwise nothing changes |
| Server.Store.DeleteUser | backend/index.js:156-164 | the admin check's status; on 200 `deleteOne` on users, nothing else changes |
| Server.Store.GetReportedLessons | backend/index.js:167-205 | the admin check's status; on 200 the corrected queue |
| Server.Store.GetLessonReports | backend/index.js:207-217 | the admin check's status; on 200 exactly the lesson's reports |
| Server.Store.DeleteReportedLesson | backend/index.js:219-231 | on 200 the lesson and all its reports go, afterwards none is found; counters stay consistent |
| Server.Store.IgnoreLessonReports | backend/index.js:233-247 | on 200 the lesson's reports are marked ignored and the lesson leaves the corrected queue; lessons untouched |
| Server.Store.GetManageLessons | backend/index.js:250-288 | on 200 the filtered listing and the whole-collection counters |
| Server.Store.SetLessonFeatured | backend/index.js:290-305 | on 200 the lesson, if found, gets `isFeatured` set; nothing else changes |
| Server.Store.SetLessonReviewed | backend/index.js:307-321 | on 200 the lesson, if found, is marked reviewed; nothing else changes |
| Server.Store.AdminDeleteLesson | backend/index.js:323-336 | on 200 `deleteOne` on lessons; reports stay |
| Server.Store.PostLesson | backend/index.js:339-344 | the body is appended under a fresh id with the server's `createdAt`, and is found under that id |
| Server.Store.GetMostSaved | backend/index.js:347-355 | the corrected ranking: at most six lessons drawn from the collection |
| Server.Store.GetLesson | backend/index.js:424-450 | 401 without a caller, 404 for an absent id, then the premium guard on the caller's roles; the lesson is returned exactly on 200 |
| Server.Store.PatchLesson | backend/index.js:453-481 | 401, 404, then 403 unless the caller created it; on 200 the supplied fields are set and the updated lesson returned; otherwise nothing changes |
| Server.Store.DeleteLesson | backend/index.js:484-505 | 401, 404, 403 as for an edit; on 200 exactly that lesson goes |
| Server.Store.PostLike | backend/index.js:515-545 | 404 exactly for an absent id; otherwise the like toggle; counters stay consistent |
| Server.Store.PostFavorite | backend/index.js:548-578 | 404 exactly for an absent id; otherwise the favorite toggle; counters stay consistent |
| Server.Store.PostRemoveFavorite | backend/index.js:406-421 | 401 without a caller; `success` exactly when the lesson exists; then the unconditional removal, after which counters stay consistent exactly when the caller was a favoriter |
| Server.Store.PostComment | backend/index.js:589-607 | the comment gets a fresh id and is returned; it is appended to the lesson if the lesson exists, and nothing changes otherwise |
| Server.Store.PostView | backend/index.js:610-622 | 404 exactly for an absent id; otherwise one more view |
| Server.Store.GetTopContributors | backend/index.js:625-649 | the corrected contributors: each row's user has the row's email, with a positive total, and every top-five creator who has a user record is listed |
| Server.Store.PostReport | backend/index.js:581-586 | the report is appended under a fresh id and is the last of its lesson's reports |
| Server.Store.PostPaymentSuccess | backend/index.js:697-715 | 500 exactly when the session cannot be read; otherwise the session's email gains `premium` |
| AddLesson.NewLesson | frontend/src/pages/Dashboard/AddLesson.jsx:58-75 | the form's fields copied, `description` from `shortDescription`, creator from the signed-in user, no likes or favorites with both counters 0 and consistent |
| AddLesson.NewLessonKeepsForm | frontend/src/pages/Dashboard/AddLesson.jsx:49-75 | the lesson built from a form gives the form back |
| PublicLessons.LowerChar | frontend/src/pages/PublicLessons_v2.jsx:34 | `toLowerCase` on one ASCII letter, every other character unchanged |
| PublicLessons.Lower | frontend/src/pages/PublicLessons_v2.jsx:34 | `toLowerCase` character by character, same length |
| PublicLessons.LowerIdempotent | frontend/src/pages/PublicLessons_v2.jsx:34 | lower-casing twice is lower-casing once |
| PublicLessons.SearchIgnoresCase | frontend/src/pages/PublicLessons_v2.jsx:33-35 | a search term matches the same titles as its lower-case form |
| PublicLessons.Step | frontend/src/pages/PublicLessons_v2.jsx:32-44 | an enabled filter keeps exactly the passing lessons; a disabled one keeps all |
| PublicLessons.Filtered | frontend/src/pages/PublicLessons_v2.jsx:29-45 | a lesson is kept exactly when it meets every non-empty filter, drawn from the input |
| PublicLessons.EmptyFiltersKeepAll | frontend/src/pages/PublicLessons_v2.jsx:30 | with no search and both selects on All the list is the input |
| PublicLessons.CategoryToneCommute | frontend/src/pages/PublicLessons_v2.jsx:38-44 | applying the tone filter first gives the same list |
| PublicLessons.OfferedCategoryMatches | frontend/src/pages/PublicLessons_v2.jsx:70 | choosing an offered category alone never empties the list |
| PublicLessons.FilterArray | frontend/src/pages/PublicLessons_v2.jsx:33-43 | `filter` returns a fresh array holding the filter of the input |
| PublicLessons.FilterStep | frontend/src/pages/PublicLessons_v2.jsx:32-44 | one `if (value) result = result.filter(...)` step: a fresh filtered array when the value is set, the same array otherwise |
| PublicLessons.SinkLeft | frontend/src/pages/PublicLessons_v2.jsx:47-53 | one insertion pass: with the prefix before `i` descending, the prefix through `i` ends descending, later slots untouched, same elements |
| PublicLessons.SortInPlace | frontend/src/pages/PublicLessons_v2.jsx:47-53 | `sort` with a descending comparator: the array ends descending and is a permutation of itself |
| PublicLessons.FilteredLessons | frontend/src/pages/PublicLessons_v2.jsx:29-57 | the result holds exactly the filtered lessons, sorted for `newest` and `mostSaved`; with no filter it is the `lessons` array itself, sorted in place; otherwise a fresh array, `lessons` untouched |
| PublicLessons.SliceIndex | frontend/src/pages/PublicLessons_v2.jsx:62-65 | a slice bound clipped into `0..n`; a negative bound counts back from the end |
| PublicLessons.JsSlice | frontend/src/pages/PublicLessons_v2.jsx:62-65 | `slice` is never longer than its input; with bounds in range it is `s[start..end]`, and an end past the length takes the rest |
| PublicLessons.Page | frontend/src/pages/PublicLessons_v2.jsx:60-65 | page `p >= 1` holds at most twelve lessons, those from index `12(p-1)` clipped to the list |
| PublicLessons.TotalPages | frontend/src/pages/PublicLessons_v2.jsx:66 | `Math.ceil(n / 12)`: the fewest pages of twelve that hold n lessons, 0 exactly for no lessons |
| PublicLessons.PagesArePrefix | frontend/src/pages/PublicLessons_v2.jsx:60-66 | the first k pages together are the list's first `12k` lessons |
| PublicLessons.AllPagesCoverList | frontend/src/pages/PublicLessons_v2.jsx:141-152 | the numbered pages together list every lesson once, in order |
| PublicLessons.PageOfIndex | frontend/src/pages/PublicLessons_v2.jsx:60-65 | lesson i is on page `i / 12 + 1` |
| PublicLessons.PrevPage | frontend/src/pages/PublicLessons_v2.jsx:137 | `Math.max(prev - 1, 1)` |
| PublicLessons.NextPage | frontend/src/pages/PublicLessons_v2.jsx:157-158 | `Math.min(prev + 1, totalPages)` |
| PublicLessons.PrevUndoesNext | frontend/src/pages/PublicLessons_v2.jsx:137-158 | before the last page, Next then Previous returns to the same page |
| PublicLessons.Pager.constructor | frontend/src/pages/PublicLessons_v2.jsx:25 | the page starts at 1 |
| PublicLessons.Pager.Previous | frontend/src/pages/PublicLessons_v2.jsx:137 | the page becomes the clamped previous, at least 1 |
| PublicLessons.Pager.Next | frontend/src/pages/PublicLessons_v2.jsx:157-158 | the page becomes the clamped next, at most the page count |
| PublicLessons.Pager.Select | frontend/src/pages/PublicLessons_v2.jsx:149 | a numbered button selects page `idx + 1` |
| PublicLessons.Pager.CurrentLessons | frontend/src/pages/PublicLessons_v2.jsx:62-65 | the current page of the filtered list, at most twelve lessons |
| MyFavorites.FilteredFavorites | frontend/src/pages/Dashboard/MyFavorites.jsx:35-40 | a favorite is kept exactly when it meets each non-empty select, in order |
| MyFavorites.EmptyFiltersListAll | frontend/src/pages/Dashboard/MyFavorites.jsx:35-40 | with both selects on All every favorite is listed |
| MyFavorites.SameAsPublicFilters | frontend/src/pages/Dashboard/MyFavorites.jsx:35-40 | the one combined predicate gives the same list as the public list's two separate filters |
| MyFavorites.OfferedCategoryKeepsSome | frontend/src/pages/Dashboard/MyFavorites.jsx:56 | choosing an offered category never empties the list |

## Left out

- HTTP transport, CORS, JSON bodies, the MongoDB driver and its connection: outside the logic. Every route is a method of `Server.Store`.
- Firebase token verification (backend/index.js:42): it calls an external service. Its outcome is the `Option<Identity>` parameter.
- `POST /create-checkout-session` (backend/index.js:665-694) and the Stripe session retrieval (backend/index.js:701-703): they call an external service. The retrieved email, or its absence, is the parameter of `PostPaymentSuccess`.
- `/admin-summary` and `/user-summary` (backend/index.js:718-848): date arithmetic, ISO weeks and clock readings are not part of this model.
- `GET /manageUsers`, `/lessons/featured`, `GET /lessons`, `/lessons/my-lessons`, `/favorites`, `/pricing` and the unguarded `PATCH /lessons/:id/featured` (backend/index.js:118-138, 358-403, 507-510, 652-662) are not part of this model.
- Concurrency: each handler is one atomic step. The race between the like/favorite read and its update is not modelled.
- An `_id` that is not a valid ObjectId makes `new ObjectId(id)` throw. Inside the try blocks of backend/index.js:406-421, 452-501 and 697-715 that answers 500. In the user and moderation routes (backend/index.js:87-247), `GET /lessons/:id` (backend/index.js:427-449) and like/favorite (backend/index.js:515-578) the throw escapes the handler, and the answer depends on the Express version. Ids are `nat` here, so every id parses and neither path is modelled.
- A stored lesson without `creator` makes `PATCH` and `DELETE /lessons/:id` throw inside their try and answer 500 (backend/index.js:465, 494). `Lesson.creator` is always present here, so that path is not modelled.
- Report `lessonId`s are stored as strings and converted with `$toObjectId`; both sides are `nat` here.
- `$set: updates` writes whatever fields the body holds. `LessonOps.ApplyPatch` covers only the six editable lesson fields.
- Server.Store.PatchLesson: its `AllCountersAgree` clause holds only because `LessonPatch` cannot carry `likes`, `likesCount`, `favorites`, `favoritesCount`, `creator` or `isReported`. The route sets any of these when the owner sends them: `{likesCount: 7}` breaks the counter rule, and a new `creator` hands the lesson to someone else.
- Server.Store.GetReportedLessons: serves the corrected queue over reports not marked ignored (`Moderation.ReportGroups`), not the queue of every report that backend/index.js:167-205 computes (`Moderation.ReportGroupsAsWritten`). See "## Findings".
- Server.Store.IgnoreLessonReports: its clause that the lesson leaves the queue holds for the corrected queue only. As written the lesson stays queued (`Moderation.IgnoredLessonStaysQueued`).
- Server.Store.GetMostSaved: serves the ranking by `favoritesCount` (`Queries.MostSaved`), not the route's sort by the unwritten `saves` (`Queries.MostSavedAsWritten`). See "## Findings".
- Server.Store.GetTopContributors: serves the contributors grouped and joined by creator email (`Queries.TopContributors`), not the route's `authorId`/`uid` join (`Queries.TopContributorsAsWritten`). See "## Findings".
- Queries.MostSavedAsWritten: ties in the sort key may come back in any order in MongoDB. The model keeps natural order, which is one outcome the server may return.
- `Array.prototype.sort` is stable in current engines. `PublicLessons.SortInPlace` promises only a descending permutation, not stability.
- The order in which `$group` emits its groups is unspecified. `Moderation.GroupsOf` uses the order of first occurrence and no contract depends on it.
- `toLowerCase` is modelled on ASCII letters only; Unicode case mapping is left out.
- Dates are `int` timestamps; `created_at` and `last_loggedIn` are ISO strings in the source.
- React rendering, queries and toasts; the premium lock of LessonDetails.jsx and the other pages are not part of this model.
- `currentPage` is not reset when a filter changes, so a narrowed list can show an empty page. The model keeps that behaviour: `PublicLessons.Pager` does not observe the filters.
- `PublicLessons.Pager.Next`: the button's `disabled` attribute is not modelled; the clamp alone bounds the page.

## Findings

| source | as written | input that shows it | evidently intended | confidence | as-written member | corrected member |
|---|---|---|---|---|---|---|
| backend/index.js:349-351 | `GET /lessons/most-saved` sorts by `saves`, a field no route writes, so every sort key ties and the route may return any six lessons, the first six stored among them | seven lessons, the first six with `favoritesCount` 0 and the seventh with 5: the route may omit the seventh (it does in natural order, which the model takes for ties) | rank by `favoritesCount`, the counter the favorite toggle keeps and the public list's `mostSaved` sort uses | not executed | Queries.MostSavedAsWritten, Queries.MostSavedMissesSavedLesson | Queries.MostSaved |
| backend/index.js:628-644 | `GET /users/top-contributors` groups lessons by `authorId`, which no lesson carries, then joins users on `uid`, which no user document stores | any non-empty lesson collection: one group with key null holding every lesson, joined to every user, so each user is listed with the total of all lessons | group by `creator.email` and join users by `email`, as the admin summary does at backend/index.js:733-739 | not executed | Queries.TopContributorsAsWritten, Queries.TopContributorsCollapse | Queries.TopContributors |
| backend/index.js:167-205 | the moderation queue groups every report, including the ones `PATCH /reported-lessons/:lessonId/ignore` (backend/index.js:233-247) marked ignored, so ignoring never takes a lesson off the queue that ReportedLessons.jsx refetches | one report for an existing lesson, then an ignore of that lesson: the lesson is still queued | queue only reports whose status is not `ignored` | not executed | Moderation.ReportGroupsAsWritten, Moderation.IgnoreLeavesQueueAsWritten, Moderation.IgnoredLessonStaysQueued | Moderation.ReportGroups, Moderation.IgnoreClearsQueue |
