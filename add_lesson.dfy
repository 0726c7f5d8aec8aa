/**
 * The add-lesson form's submit handler: the lesson record the client
 * posts to `POST /lessons`, built from the form fields and the logged-in
 * Firebase user.
 */
module AddLesson {
  import opened Wrappers
  import opened Domain

  /** The fields of the add-lesson form. */
  datatype LessonForm = LessonForm(
    title: string,
    shortDescription: string,
    fullDescription: string,
    category: string,
    emotionalTone: string,
    accessLevel: string)

  /** The logged-in Firebase user, as far as the form reads it. */
  datatype AuthUser = AuthUser(displayName: string, email: string, photoURL: string)

  /**
   * The posted record. Fields the client does not send are represented as
   * absent: no `authorId`, no views, no comments, no moderation flags.
   */
  function NewLesson(form: LessonForm, user: AuthUser, now: int): (l: Lesson)
    ensures l.likes == [] && l.likesCount == 0
    ensures l.favorites == [] && l.favoritesCount == 0
    ensures LikesConsistent(l) && FavoritesConsistent(l)
    ensures l.creator.name == user.displayName && l.creator.email == user.email && l.creator.photoURL == user.photoURL
    ensures l.description == form.shortDescription
    ensures l.title == form.title && l.fullDescription == form.fullDescription
    ensures l.category == form.category && l.emotionalTone == form.emotionalTone && l.accessLevel == form.accessLevel
    ensures l.createdAt == now && l.authorId.None?
    ensures l.viewsCount == 0 && l.comments == [] && !l.isFeatured && !l.isReviewed && !l.isReported
  {
    Lesson(
      form.title,
      form.shortDescription,
      form.fullDescription,
      form.category,
      form.emotionalTone,
      form.accessLevel,
      Creator(user.displayName, user.email, user.photoURL),
      now,
      None,
      [], 0,
      [], 0,
      0,
      [],
      false, false, false)
  }

  /** The form is read back from the record: the record loses none of what was entered. */
  function FormOf(l: Lesson): LessonForm
  {
    LessonForm(l.title, l.description, l.fullDescription, l.category, l.emotionalTone, l.accessLevel)
  }

  lemma NewLessonKeepsForm(form: LessonForm, user: AuthUser, now: int)
    ensures FormOf(NewLesson(form, user, now)) == form
  {
  }
}
