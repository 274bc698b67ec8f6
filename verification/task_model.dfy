/** The task schema: which documents the store accepts on `save`, and the
    defaults it fills in. */
module TaskModel {
  import opened Wrappers

  type TaskId = string
  type UserId = string
  /** Dates are kept as milliseconds since the epoch. */
  type Millis = int

  /** Longest description the schema accepts, in UTF-16 code units. */
  const MaxDescription: nat := 500

  /** A stored task. `dueDate` keeps the date as the client sent it. */
  datatype Task = Task(
    id: TaskId,
    title: string,
    description: Option<string>,
    completed: bool,
    subject: Option<string>,
    dueDate: Option<string>,
    createdAt: Millis,
    updatedAt: Millis,
    user: UserId)

  /** A document before validation: every field may still be missing. */
  datatype Draft = Draft(
    title: Option<string>,
    description: Option<string>,
    completed: Option<bool>,
    subject: Option<string>,
    dueDate: Option<string>,
    createdAt: Option<Millis>,
    updatedAt: Option<Millis>,
    user: Option<UserId>)

  /** Length of `s` as JavaScript counts it: characters outside the Basic
      Multilingual Plane take two UTF-16 code units. */
  function Utf16Length(s: string): (n: nat)
    ensures |s| <= n <= 2 * |s|
  {
    if s == [] then 0
    else (if s[0] as int > 0xFFFF then 2 else 1) + Utf16Length(s[1..])
  }

  /** A required string must be present and non-empty. */
  predicate RequiredString(s: Option<string>) {
    s.Some? && s.value != ""
  }

  predicate DescriptionFits(d: Option<string>) {
    d.None? || Utf16Length(d.value) <= MaxDescription
  }

  /** The schema's validators on a draft: `title`, `completed` and `user` are
      required, `description` is at most 500 long. */
  predicate Valid(d: Draft) {
    && RequiredString(d.title)
    && DescriptionFits(d.description)
    && d.completed.Some?
    && d.user.Some?
  }

  /** The validators, restated for a task already in the store. */
  predicate ValidTask(t: Task) {
    t.title != "" && DescriptionFits(t.description)
  }

  /** `new Task(fields).save()`: validate, fill in the timestamps and store
      under `id`. `None` is the validation error `save` throws. The schema's
      `timestamps` option sets `createdAt` to now unless it is given, and
      sets a new document's `updatedAt` to its `createdAt`, overwriting any
      `updatedAt` the draft carries. */
  function Save(d: Draft, id: TaskId, now: Millis): (r: Option<Task>)
    ensures r.Some? <==> Valid(d)
    ensures r.Some? ==> ValidTask(r.value)
    ensures r.Some? ==> && r.value.id == id
                        && Some(r.value.title) == d.title
                        && r.value.description == d.description
                        && Some(r.value.completed) == d.completed
                        && r.value.subject == d.subject
                        && r.value.dueDate == d.dueDate
                        && Some(r.value.user) == d.user
    ensures r.Some? ==> && r.value.createdAt == d.createdAt.GetOr(now)
                        && r.value.updatedAt == r.value.createdAt
  {
    if Valid(d) then
      Some(Task(id, d.title.value, d.description, d.completed.value, d.subject, d.dueDate,
                d.createdAt.GetOr(now), d.createdAt.GetOr(now), d.user.value))
    else None
  }

  /** A draft without a title, or with an empty one, is rejected. */
  lemma TitleRequired(d: Draft, id: TaskId, now: Millis)
    requires d.title.None? || d.title == Some("")
    ensures Save(d, id, now).None?
  {
  }

  /** The description limit: a description whose UTF-16 length exceeds 500 is
      rejected; an absent one, or one of at most 500 units, never is. */
  lemma DescriptionLimit(d: Draft, id: TaskId, now: Millis)
    requires RequiredString(d.title) && d.completed.Some? && d.user.Some?
    ensures Save(d, id, now).Some? <==> (d.description.None? || Utf16Length(d.description.value) <= 500)
  {
  }

  /** More than 500 characters are always too many, since each takes at
      least one UTF-16 code unit. */
  lemma LongDescriptionRejected(s: string)
    requires |s| > MaxDescription
    ensures !DescriptionFits(Some(s))
  {
  }
}
