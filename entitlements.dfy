/**
 * Role grants on the users collection: admin promotion by `_id` and the
 * premium grant by email after a confirmed payment. Both are
 * `updateOne(filter, {$addToSet: {role: r}})`: the first matching user gains
 * the role once, nothing else changes, and no match changes nothing.
 */
module Entitlements {
  import opened Wrappers
  import opened Seqs
  import opened UpdateOps
  import opened Domain

  /** `$addToSet: {role: role}` on the user at index `i`. */
  function AddRoleAt(users: seq<Stored<User>>, i: nat, role: string): (r: seq<Stored<User>>)
    requires i < |users|
    ensures |r| == |users|
    ensures r[i].id == users[i].id
    ensures r[i].doc == users[i].doc.(role := AddToSet(users[i].doc.role, role))
    ensures forall j :: 0 <= j < |users| && j != i ==> r[j] == users[j]
  {
    users[i := Stored(users[i].id, users[i].doc.(role := AddToSet(users[i].doc.role, role)))]
  }

  /** What a grant may change: only role lists, and only by adding to their end. */
  predicate OnlyRolesGrew(before: seq<Stored<User>>, after: seq<Stored<User>>)
  {
    && |after| == |before|
    && forall j :: 0 <= j < |before| ==>
         after[j].id == before[j].id
         && after[j].doc.(role := before[j].doc.role) == before[j].doc
         && before[j].doc.role <= after[j].doc.role
  }

  /** `PATCH /manageUsers/promote/:id`: the user with that `_id` gains `admin`. */
  function GrantById(users: seq<Stored<User>>, id: nat, role: string): (r: seq<Stored<User>>)
    ensures OnlyRolesGrew(users, r)
    ensures FindId(users, id).None? ==> r == users
    ensures FindId(users, id).Some? ==> role in r[FindId(users, id).value].doc.role
    ensures FindId(users, id).Some? ==>
      forall j :: 0 <= j < |users| && j != FindId(users, id).value ==> r[j] == users[j]
  {
    match FindId(users, id)
    case None => users
    case Some(i) => AddRoleAt(users, i, role)
  }

  /** `/payment-success`: the first user with the session's email gains `premium`. */
  function GrantByEmail(users: seq<Stored<User>>, email: string, role: string): (r: seq<Stored<User>>)
    ensures OnlyRolesGrew(users, r)
    ensures FindEmail(users, email).None? ==> r == users
    ensures FindEmail(users, email).Some? ==> role in r[FindEmail(users, email).value].doc.role
    ensures FindEmail(users, email).Some? ==>
      forall j :: 0 <= j < |users| && j != FindEmail(users, email).value ==> r[j] == users[j]
  {
    match FindEmail(users, email)
    case None => users
    case Some(i) => AddRoleAt(users, i, role)
  }

  /** A grant leaves the ids where they were, so an `_id` lookup finds the same user. */
  lemma {:induction false} FindIdAfterGrowth(before: seq<Stored<User>>, after: seq<Stored<User>>, id: nat)
    requires OnlyRolesGrew(before, after)
    ensures FindId(after, id) == FindId(before, id)
    decreases |before|
  {
    if before != [] {
      assert OnlyRolesGrew(before[1..], after[1..]) by {
        forall j | 0 <= j < |before[1..]|
          ensures after[1..][j].id == before[1..][j].id
          ensures after[1..][j].doc.(role := before[1..][j].doc.role) == before[1..][j].doc
          ensures before[1..][j].doc.role <= after[1..][j].doc.role
        {
          assert after[1..][j] == after[j + 1] && before[1..][j] == before[j + 1];
        }
      }
      FindIdAfterGrowth(before[1..], after[1..], id);
    }
  }

  /** A grant leaves the emails where they were, so an email lookup finds the same user. */
  lemma {:induction false} FindEmailAfterGrowth(before: seq<Stored<User>>, after: seq<Stored<User>>, email: string)
    requires OnlyRolesGrew(before, after)
    ensures FindEmail(after, email) == FindEmail(before, email)
    decreases |before|
  {
    if before != [] {
      assert after[0].doc.email == before[0].doc.email by {
        assert after[0].doc.(role := before[0].doc.role).email == after[0].doc.email;
      }
      assert OnlyRolesGrew(before[1..], after[1..]) by {
        forall j | 0 <= j < |before[1..]|
          ensures after[1..][j].id == before[1..][j].id
          ensures after[1..][j].doc.(role := before[1..][j].doc.role) == before[1..][j].doc
          ensures before[1..][j].doc.role <= after[1..][j].doc.role
        {
          assert after[1..][j] == after[j + 1] && before[1..][j] == before[j + 1];
        }
      }
      FindEmailAfterGrowth(before[1..], after[1..], email);
    }
  }

  /** Promoting the same user twice is promoting once. */
  lemma GrantByIdIdempotent(users: seq<Stored<User>>, id: nat, role: string)
    ensures GrantById(GrantById(users, id, role), id, role) == GrantById(users, id, role)
  {
    var once := GrantById(users, id, role);
    FindIdAfterGrowth(users, once, id);
    match FindId(users, id)
    case None =>
    case Some(i) =>
      assert AddToSet(once[i].doc.role, role) == once[i].doc.role;
      assert AddRoleAt(once, i, role) == once;
  }

  /** Confirming the same payment twice grants `premium` once. */
  lemma GrantByEmailIdempotent(users: seq<Stored<User>>, email: string, role: string)
    ensures GrantByEmail(GrantByEmail(users, email, role), email, role) == GrantByEmail(users, email, role)
  {
    var once := GrantByEmail(users, email, role);
    FindEmailAfterGrowth(users, once, email);
    match FindEmail(users, email)
    case None =>
    case Some(i) =>
      assert AddToSet(once[i].doc.role, role) == once[i].doc.role;
      assert AddRoleAt(once, i, role) == once;
  }

  /** Every role a user held is still held after a grant. */
  lemma GrowthKeepsRoles(before: seq<Stored<User>>, after: seq<Stored<User>>, j: nat, r: string)
    requires OnlyRolesGrew(before, after)
    requires j < |before| && r in before[j].doc.role
    ensures r in after[j].doc.role
  {
    var k :| 0 <= k < |before[j].doc.role| && before[j].doc.role[k] == r;
    assert after[j].doc.role[k] == r;
  }
}
