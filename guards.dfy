/**
 * The authorisation decisions the handlers take before touching data:
 * the role lookup with its `['user']` default, `verifyAdmin`, the premium
 * guard of a lesson read, and the creator check of a lesson edit or delete.
 */
module Guards {
  import opened Wrappers
  import opened Domain

  /** The caller's roles: the stored role list, or `['user']` without a user record. */
  function RolesOf(users: seq<Stored<User>>, email: string): (r: seq<string>)
    ensures FindEmail(users, email).None? ==> r == ["user"]
    ensures FindEmail(users, email).Some? ==> r == users[FindEmail(users, email).value].doc.role
  {
    match FindEmail(users, email)
    case None => ["user"]
    case Some(i) => users[i].doc.role
  }

  /**
   * Token check followed by `verifyAdmin`: 401 without a verified identity,
   * 403 when no user record has the caller's email or the first such
   * record's roles lack `admin`.
   */
  function AdminCheck(users: seq<Stored<User>>, caller: Option<Identity>): (s: Status)
    ensures s == Ok || s == Unauthorized || s == Forbidden
    ensures s == Unauthorized <==> caller.None?
    ensures s == Ok <==>
      caller.Some? && FindEmail(users, caller.value.email).Some? &&
      "admin" in users[FindEmail(users, caller.value.email).value].doc.role
  {
    match caller
    case None => Unauthorized
    case Some(who) =>
      match FindEmail(users, who.email)
      case None => Forbidden
      case Some(i) => if "admin" in users[i].doc.role then Ok else Forbidden
  }

  /** A premium lesson is readable only by a caller whose roles include `premium`. */
  function PremiumCheck(lesson: Lesson, roles: seq<string>): (s: Status)
    ensures s == Ok || s == PremiumRequired
    ensures s == PremiumRequired <==> lesson.accessLevel == "premium" && "premium" !in roles
  {
    if lesson.accessLevel == "premium" && "premium" !in roles then PremiumRequired else Ok
  }

  /** Only the lesson's creator, matched by email, may edit or delete it. */
  function OwnerCheck(lesson: Lesson, who: Identity): (s: Status)
    ensures s == Ok || s == Forbidden
    ensures s == Ok <==> lesson.creator.email == who.email
  {
    if lesson.creator.email == who.email then Ok else Forbidden
  }

  /** The `admin` role alone does not open a premium lesson. */
  lemma AdminIsNotPremium(lesson: Lesson, roles: seq<string>)
    requires lesson.accessLevel == "premium"
    requires "admin" in roles && "premium" !in roles
    ensures PremiumCheck(lesson, roles) == PremiumRequired
  {
  }

  /** A caller without a user record reads as `['user']` and is kept out of premium lessons. */
  lemma NoRecordNoPremium(users: seq<Stored<User>>, email: string, lesson: Lesson)
    requires FindEmail(users, email).None?
    requires lesson.accessLevel == "premium"
    ensures PremiumCheck(lesson, RolesOf(users, email)) == PremiumRequired
  {
  }
}
