/** The task request handlers, each a transformer of the task store that also
    yields the reply it sends. The caller's user id (resolved by the auth
    middleware), the clock and the id the store assigns are parameters, and
    `fault` says that a store call throws. */
module TaskController {
  import opened Wrappers
  import opened Response
  import opened TaskModel

  /** The task collection: each task is stored under its own id. */
  type TaskStore = m: map<TaskId, Task> | forall id :: id in m ==> m[id].id == id witness map[]

  /** The fields a request body may carry. `user` is whatever the client
      claims as owner; the handlers never read it. */
  datatype TaskRequest = TaskRequest(
    title: Option<string>,
    description: Option<string>,
    completed: Option<bool>,
    subject: Option<string>,
    dueDate: Option<string>,
    user: Option<UserId>)

  /** The store after a request, and the reply to it. */
  datatype Handled<T> = Handled(store: TaskStore, reply: Reply<T>)

  const ServerErrorMessage := "Server Error"
  const NotFoundMessage := "Task not found"
  const NotAuthorizedMessage := "Not authorized"

  /** A string field is truthy in JavaScript when present and non-empty. */
  predicate Truthy(s: Option<string>) {
    s.Some? && s.value != ""
  }

  // ---------------------------------------------------------------------------
  // createTask

  /** The document `createTask` builds: `completed || false`, and the owner is
      the caller, whatever the body says. */
  function CreateDraft(body: TaskRequest, caller: UserId): (d: Draft)
    ensures d.completed == Some(body.completed == Some(true))
    ensures d.user == Some(caller)
    ensures d.createdAt.None? && d.updatedAt.None?
    ensures d.title == body.title && d.description == body.description
    ensures d.subject == body.subject && d.dueDate == body.dueDate
  {
    Draft(body.title, body.description, Some(body.completed == Some(true)),
          body.subject, body.dueDate, None, None, Some(caller))
  }

  /** `createTask`: save the new task under `newId`. A store failure, a
      validation error or an id already taken makes `save` throw, which is
      answered with transport status 500. */
  function CreateTask(s: TaskStore, caller: UserId, body: TaskRequest, newId: TaskId, now: Millis, fault: bool)
    : (r: Handled<Task>)
    ensures r.reply.status == 200 <==> !fault && newId !in s && Valid(CreateDraft(body, caller))
    ensures r.reply.status != 200 ==> r.store == s && r.reply == ServerError(ServerErrorMessage)
    ensures r.reply.status == 200 ==>
      && r.reply.body.data.Some?
      && var t := r.reply.body.data.value;
      && r.store == s[newId := t]
      && r.reply.body == Ok(Some(t), Some("Task created successfully"))
      && t.id == newId && t.user == caller
      && t.completed == (body.completed == Some(true))
      && Some(t.title) == body.title && t.description == body.description
      && t.subject == body.subject && t.dueDate == body.dueDate
      && t.createdAt == now && t.updatedAt == now
      && ValidTask(t)
  {
    if fault || newId in s then Handled(s, ServerError(ServerErrorMessage))
    else
      match Save(CreateDraft(body, caller), newId, now)
      case None => Handled(s, ServerError(ServerErrorMessage))
      case Some(t) => Handled(s[newId := t], Json(Ok(Some(t), Some("Task created successfully"))))
  }

  // ---------------------------------------------------------------------------
  // The two guards of getTaskById, updateTask and deleteTask

  /** What the guards find: no task, someone else's task, or the caller's. */
  datatype Access = Missing | Foreign | Owned(task: Task)

  /** Existence first, ownership second. */
  function Guard(s: TaskStore, caller: UserId, id: TaskId): (a: Access)
    ensures a.Missing? <==> id !in s
    ensures a.Foreign? <==> id in s && s[id].user != caller
    ensures a.Owned? <==> id in s && s[id].user == caller
    ensures a.Owned? ==> a.task == s[id] && a.task.id == id
  {
    if id !in s then Missing
    else if s[id].user != caller then Foreign
    else Owned(s[id])
  }

  /** The reply for a request the guards stop: 404 for a missing task, 401
      (not 403) for someone else's, both with transport status 200. */
  function Refusal<T>(a: Access): (r: Reply<T>)
    requires !a.Owned?
    ensures r.status == 200 && !r.body.success && r.body.data.None?
    ensures a.Missing? ==> r.body.statusCode == 404 && r.body.message == NotFoundMessage
    ensures a.Foreign? ==> r.body.statusCode == 401 && r.body.message == NotAuthorizedMessage
  {
    if a.Missing? then Json(Error(404, NotFoundMessage)) else Json(Error(401, NotAuthorizedMessage))
  }

  // ---------------------------------------------------------------------------
  // getTaskById

  function GetTaskById(s: TaskStore, caller: UserId, id: TaskId, fault: bool): (r: Reply<Task>)
    ensures fault ==> r == ServerError(ServerErrorMessage)
    ensures !fault && id !in s ==> r == Json(Error(404, NotFoundMessage))
    ensures !fault && id in s && s[id].user != caller ==> r == Json(Error(401, NotAuthorizedMessage))
    ensures !fault && id in s && s[id].user == caller ==> r == Json(Ok(Some(s[id]), None))
  {
    if fault then ServerError(ServerErrorMessage)
    else
      match Guard(s, caller, id)
      case Owned(t) => Json(Ok(Some(t), None))
      case a => Refusal(a)
  }

  // ---------------------------------------------------------------------------
  // updateTask

  /** The `$set` of `updateTask` applied to `t`: the strings overwrite only when
      truthy, `completed` whenever present, and `updatedAt` always. */
  function Merge(t: Task, body: TaskRequest, now: Millis): (u: Task)
    ensures u.id == t.id && u.user == t.user && u.createdAt == t.createdAt
    ensures u.updatedAt == now
    ensures u.title == (if Truthy(body.title) then body.title.value else t.title)
    ensures u.description == (if Truthy(body.description) then body.description else t.description)
    ensures u.subject == (if Truthy(body.subject) then body.subject else t.subject)
    ensures u.dueDate == (if Truthy(body.dueDate) then body.dueDate else t.dueDate)
    ensures u.completed == body.completed.GetOr(t.completed)
  {
    t.(title := if Truthy(body.title) then body.title.value else t.title,
       description := if Truthy(body.description) then body.description else t.description,
       completed := body.completed.GetOr(t.completed),
       subject := if Truthy(body.subject) then body.subject else t.subject,
       dueDate := if Truthy(body.dueDate) then body.dueDate else t.dueDate,
       updatedAt := now)
  }

  /** `updateTask`: the guards, then the merge; the reply carries the task as
      it is after the update. The schema validators are not run on this path. */
  function UpdateTask(s: TaskStore, caller: UserId, id: TaskId, body: TaskRequest, now: Millis, fault: bool)
    : (r: Handled<Task>)
    ensures fault ==> r == Handled(s, ServerError(ServerErrorMessage))
    ensures !fault && id !in s ==> r == Handled(s, Json(Error(404, NotFoundMessage)))
    ensures !fault && id in s && s[id].user != caller ==> r == Handled(s, Json(Error(401, NotAuthorizedMessage)))
    ensures !fault && id in s && s[id].user == caller ==>
      && r.store.Keys == s.Keys
      && (forall k :: k in s && k != id ==> r.store[k] == s[k])
      && r.store[id] == Merge(s[id], body, now)
      && r.reply == Json(Ok(Some(r.store[id]), Some("Task updated successfully")))
  {
    if fault then Handled(s, ServerError(ServerErrorMessage))
    else
      match Guard(s, caller, id)
      case Owned(t) =>
        var u := Merge(t, body, now);
        Handled(s[id := u], Json(Ok(Some(u), Some("Task updated successfully"))))
      case a => Handled(s, Refusal(a))
  }

  // ---------------------------------------------------------------------------
  // deleteTask

  function DeleteTask(s: TaskStore, caller: UserId, id: TaskId, fault: bool): (r: Handled<Task>)
    ensures fault ==> r == Handled(s, ServerError(ServerErrorMessage))
    ensures !fault && id !in s ==> r == Handled(s, Json(Error(404, NotFoundMessage)))
    ensures !fault && id in s && s[id].user != caller ==> r == Handled(s, Json(Error(401, NotAuthorizedMessage)))
    ensures !fault && id in s && s[id].user == caller ==>
      && r.store.Keys == s.Keys - {id}
      && (forall k :: k in r.store ==> r.store[k] == s[k])
      && r.reply == Json(Ok(None, Some("Task removed")))
  {
    if fault then Handled(s, ServerError(ServerErrorMessage))
    else
      match Guard(s, caller, id)
      case Owned(_) => Handled(s - {id}, Json(Ok(None, Some("Task removed"))))
      case a => Handled(s, Refusal(a))
  }

  // ---------------------------------------------------------------------------
  // Listings: getAllMyTasks and getMyTasksByCompletionStatus

  /** The query filter `{user: owner}`, plus `{completed}` when given. */
  predicate Matches(t: Task, owner: UserId, completed: Option<bool>) {
    t.user == owner && (completed.None? || t.completed == completed.value)
  }

  /** `.sort({createdAt: -1})`: newest first; ties may come in any order. */
  predicate NewestFirst(ts: seq<Task>) {
    forall i, j :: 0 <= i < j < |ts| ==> ts[i].createdAt >= ts[j].createdAt
  }

  predicate DistinctIds(ts: seq<Task>) {
    forall i, j :: 0 <= i < j < |ts| ==> ts[i].id != ts[j].id
  }

  /** `ts` is an answer to the query: exactly the matching tasks of the
      store, each once, newest first. */
  ghost predicate Listing(ts: seq<Task>, s: TaskStore, owner: UserId, completed: Option<bool>) {
    && NewestFirst(ts)
    && DistinctIds(ts)
    && (forall t :: t in ts <==> t in s.Values && Matches(t, owner, completed))
  }

  /** A task no younger than every element may go in front. */
  lemma ConsNewestFirst(h: Task, ts: seq<Task>)
    requires NewestFirst(ts)
    requires forall x :: x in ts ==> x.createdAt <= h.createdAt
    ensures NewestFirst([h] + ts)
  {
    forall i, j | 0 <= i < j < |[h] + ts|
      ensures ([h] + ts)[i].createdAt >= ([h] + ts)[j].createdAt
    {
      assert ([h] + ts)[j] == ts[j - 1] && ts[j - 1] in ts;
      if i > 0 {
        assert ([h] + ts)[i] == ts[i - 1];
      }
    }
  }

  /** A task whose id no element carries may go in front. */
  lemma ConsDistinctIds(h: Task, ts: seq<Task>)
    requires DistinctIds(ts)
    requires forall x :: x in ts ==> x.id != h.id
    ensures DistinctIds([h] + ts)
  {
    forall i, j | 0 <= i < j < |[h] + ts|
      ensures ([h] + ts)[i].id != ([h] + ts)[j].id
    {
      assert ([h] + ts)[j] == ts[j - 1] && ts[j - 1] in ts;
      if i > 0 {
        assert ([h] + ts)[i] == ts[i - 1];
      }
    }
  }

  /** The head of a newest-first sequence is the newest of all. */
  lemma HeadIsNewest(ts: seq<Task>)
    requires NewestFirst(ts) && ts != []
    ensures forall x :: x in ts ==> x.createdAt <= ts[0].createdAt
  {
    forall x | x in ts
      ensures x.createdAt <= ts[0].createdAt
    {
      var k :| 0 <= k < |ts| && ts[k] == x;
    }
  }

  /** The head's id differs from the ids of the rest. */
  lemma HeadIdIsUnique(ts: seq<Task>)
    requires DistinctIds(ts) && ts != []
    ensures forall x :: x in ts[1..] ==> x.id != ts[0].id
  {
    forall x | x in ts[1..]
      ensures x.id != ts[0].id
    {
      var k :| 0 <= k < |ts| - 1 && ts[1..][k] == x;
      assert ts[k + 1] == x;
    }
  }

  /** Insert `t` into a newest-first sequence. */
  function InsertNewestFirst(t: Task, ts: seq<Task>): (r: seq<Task>)
    requires NewestFirst(ts)
    ensures NewestFirst(r)
    ensures |r| == |ts| + 1
    ensures forall x :: x in r <==> x == t || x in ts
  {
    if ts == [] then [t]
    else if t.createdAt >= ts[0].createdAt then
      HeadIsNewest(ts);
      ConsNewestFirst(t, ts);
      [t] + ts
    else
      HeadIsNewest(ts);
      assert forall x :: x in ts[1..] ==> x in ts;
      var rest := InsertNewestFirst(t, ts[1..]);
      ConsNewestFirst(ts[0], rest);
      [ts[0]] + rest
  }

  /** Inserting a task whose id is new keeps ids distinct. */
  lemma {:induction false} InsertKeepsDistinctIds(t: Task, ts: seq<Task>)
    requires NewestFirst(ts) && DistinctIds(ts)
    requires forall x :: x in ts ==> x.id != t.id
    ensures DistinctIds(InsertNewestFirst(t, ts))
  {
    if ts == [] {
    } else if t.createdAt >= ts[0].createdAt {
      ConsDistinctIds(t, ts);
    } else {
      assert NewestFirst(ts[1..]) && DistinctIds(ts[1..]);
      assert forall x :: x in ts[1..] ==> x in ts;
      InsertKeepsDistinctIds(t, ts[1..]);
      var rest := InsertNewestFirst(t, ts[1..]);
      HeadIdIsUnique(ts);
      assert ts[0] in ts;
      ConsDistinctIds(ts[0], rest);
    }
  }

  /** `Task.find(filter).sort({createdAt: -1})` over the store. */
  method FindTasks(s: TaskStore, owner: UserId, completed: Option<bool>) returns (ts: seq<Task>)
    ensures Listing(ts, s, owner, completed)
  {
    ts := [];
    var pending := s.Keys;
    while pending != {}
      invariant pending <= s.Keys
      invariant NewestFirst(ts) && DistinctIds(ts)
      invariant forall t :: t in ts <==> t in s.Values && t.id !in pending && Matches(t, owner, completed)
      decreases pending
    {
      var k :| k in pending;
      pending := pending - {k};
      if Matches(s[k], owner, completed) {
        InsertKeepsDistinctIds(s[k], ts);
        ts := InsertNewestFirst(s[k], ts);
      }
    }
  }

  /** `getAllMyTasks`: the caller's tasks, newest first. */
  method GetAllMyTasks(s: TaskStore, caller: UserId, fault: bool) returns (r: Reply<seq<Task>>)
    ensures fault ==> r == ServerError(ServerErrorMessage)
    ensures !fault ==> && r.status == 200 && r.body.success && r.body.statusCode == 200
                       && r.body.message == "OK" && r.body.data.Some?
                       && Listing(r.body.data.value, s, caller, None)
  {
    if fault {
      return ServerError(ServerErrorMessage);
    }
    var ts := FindTasks(s, caller, None);
    r := Json(Ok(Some(ts), None));
  }

  /** `req.query.completed === 'true'`: any other value, or none, reads as false. */
  function CompletionFlag(query: Option<string>): bool {
    query == Some("true")
  }

  /** `getMyTasksByCompletionStatus`: the caller's tasks whose `completed`
      equals the flag, newest first. */
  method GetMyTasksByCompletionStatus(s: TaskStore, caller: UserId, query: Option<string>, fault: bool)
    returns (r: Reply<seq<Task>>)
    ensures fault ==> r == ServerError(ServerErrorMessage)
    ensures !fault ==> && r.status == 200 && r.body.success && r.body.statusCode == 200
                       && r.body.message == "OK" && r.body.data.Some?
                       && Listing(r.body.data.value, s, caller, Some(query == Some("true")))
  {
    if fault {
      return ServerError(ServerErrorMessage);
    }
    var ts := FindTasks(s, caller, Some(CompletionFlag(query)));
    r := Json(Ok(Some(ts), None));
  }
}
