/** Properties of the task handlers that relate several calls, or a call to
    an independent description of what it should do. */
module TaskProperties {
  import opened Wrappers
  import opened Response
  import opened TaskModel
  import opened TaskController
  import opened Sequences

  // ---------------------------------------------------------------------------
  // Ownership and the order of the guards

  /** The owner of a new task comes from the caller, never from the body: two
      bodies that differ only in the `user` they claim create the same task. */
  lemma CreateIgnoresClaimedOwner(s: TaskStore, caller: UserId, body: TaskRequest, u1: Option<UserId>,
                                  u2: Option<UserId>, newId: TaskId, now: Millis, fault: bool)
    ensures CreateTask(s, caller, body.(user := u1), newId, now, fault)
         == CreateTask(s, caller, body.(user := u2), newId, now, fault)
    ensures var r := CreateTask(s, caller, body.(user := u1), newId, now, fault);
            r.reply.status == 200 ==> r.store[newId].user == caller
  {
  }

  /** A missing id is reported before ownership is looked at: every caller gets
      the same 404, and the store is unchanged. */
  lemma MissingIdIgnoresCaller(s: TaskStore, a: UserId, b: UserId, id: TaskId, body: TaskRequest, now: Millis)
    requires id !in s
    ensures GetTaskById(s, a, id, false) == GetTaskById(s, b, id, false) == Json(Error(404, NotFoundMessage))
    ensures UpdateTask(s, a, id, body, now, false) == UpdateTask(s, b, id, body, now, false)
                                                 == Handled(s, Json(Error(404, NotFoundMessage)))
    ensures DeleteTask(s, a, id, false) == DeleteTask(s, b, id, false) == Handled(s, Json(Error(404, NotFoundMessage)))
  {
  }

  /** Someone else's task can be neither read, changed nor removed: all three
      answer 401 "Not authorized" and leave the store as it was. */
  lemma ForeignTaskUntouchable(s: TaskStore, caller: UserId, id: TaskId, body: TaskRequest, now: Millis)
    requires id in s && s[id].user != caller
    ensures GetTaskById(s, caller, id, false) == Json(Error(401, NotAuthorizedMessage))
    ensures UpdateTask(s, caller, id, body, now, false) == Handled(s, Json(Error(401, NotAuthorizedMessage)))
    ensures DeleteTask(s, caller, id, false) == Handled(s, Json(Error(401, NotAuthorizedMessage)))
  {
  }

  /** After its owner deletes a task, nobody finds it: a following
      `getTaskById` on that id answers 404, whoever asks. */
  lemma DeleteThenGet(s: TaskStore, owner: UserId, other: UserId, id: TaskId)
    requires id in s && s[id].user == owner
    ensures var r := DeleteTask(s, owner, id, false);
            && r.reply.body.success
            && GetTaskById(r.store, owner, id, false) == Json(Error(404, NotFoundMessage))
            && GetTaskById(r.store, other, id, false) == Json(Error(404, NotFoundMessage))
  {
  }

  /** A second deletion of the same id finds nothing to delete. */
  lemma DeleteTwice(s: TaskStore, owner: UserId, id: TaskId)
    requires id in s && s[id].user == owner
    ensures var r1 := DeleteTask(s, owner, id, false);
            var r2 := DeleteTask(r1.store, owner, id, false);
            r2 == Handled(r1.store, Json(Error(404, NotFoundMessage)))
  {
  }

  // ---------------------------------------------------------------------------
  // The partial merge of updateTask

  /** Sending the same update twice at the same instant is the same as sending
      it once. */
  lemma UpdateIdempotent(s: TaskStore, owner: UserId, id: TaskId, body: TaskRequest, now: Millis)
    requires id in s && s[id].user == owner
    ensures var r1 := UpdateTask(s, owner, id, body, now, false);
            UpdateTask(r1.store, owner, id, body, now, false) == r1
  {
    var r1 := UpdateTask(s, owner, id, body, now, false);
    assert r1.store[id] == Merge(s[id], body, now);
    assert Merge(r1.store[id], body, now) == r1.store[id];
    assert r1.store[id := r1.store[id]] == r1.store;
  }

  /** An empty update body changes nothing but `updatedAt`; empty strings in
      the body are ignored like absent fields, while `completed: false` is
      applied. */
  lemma UpdateTruthiness(t: Task, now: Millis)
    ensures Merge(t, TaskRequest(None, None, None, None, None, None), now) == t.(updatedAt := now)
    ensures Merge(t, TaskRequest(Some(""), Some(""), None, Some(""), Some(""), None), now) == t.(updatedAt := now)
    ensures Merge(t, TaskRequest(None, None, Some(false), None, None, None), now) == t.(completed := false, updatedAt := now)
  {
  }

  /** A partial update: `{completed: true}` on a task titled "X" keeps the
      title and every other field, sets `completed`, and advances `updatedAt`. */
  lemma PartialUpdateExample(s: TaskStore, owner: UserId, id: TaskId, now: Millis)
    requires id in s && s[id].user == owner && s[id].title == "X" && !s[id].completed
    requires s[id].updatedAt < now
    ensures var r := UpdateTask(s, owner, id, TaskRequest(None, None, Some(true), None, None, None), now, false);
            && r.store[id] == s[id].(completed := true, updatedAt := now)
            && r.store[id].title == "X"
            && r.store[id].updatedAt > s[id].updatedAt
            && r.reply.body.data == Some(r.store[id])
  {
  }

  // ---------------------------------------------------------------------------
  // The schema validators as a store invariant

  ghost predicate AllValid(s: TaskStore) {
    forall id :: id in s ==> ValidTask(s[id])
  }

  /** Creating a task keeps every stored task valid: `save` runs the validators. */
  lemma CreateKeepsValid(s: TaskStore, caller: UserId, body: TaskRequest, newId: TaskId, now: Millis, fault: bool)
    requires AllValid(s)
    ensures AllValid(CreateTask(s, caller, body, newId, now, fault).store)
  {
  }

  /** Deleting a task keeps every remaining task valid. */
  lemma DeleteKeepsValid(s: TaskStore, caller: UserId, id: TaskId, fault: bool)
    requires AllValid(s)
    ensures AllValid(DeleteTask(s, caller, id, fault).store)
  {
  }

  /** `updateTask` does not run the validators: an owner's update keeps the
      store valid exactly when the description it sets (if any) fits. The
      title stays non-empty because only a truthy title overwrites it. */
  lemma UpdateKeepsValidIff(s: TaskStore, owner: UserId, id: TaskId, body: TaskRequest, now: Millis)
    requires AllValid(s) && id in s && s[id].user == owner
    ensures AllValid(UpdateTask(s, owner, id, body, now, false).store)
        <==> (!Truthy(body.description) || DescriptionFits(body.description))
  {
    var r := UpdateTask(s, owner, id, body, now, false);
    if !AllValid(r.store) {
      var k :| k in r.store && !ValidTask(r.store[k]);
      assert k == id;
    }
    if Truthy(body.description) && !DescriptionFits(body.description) {
      assert !ValidTask(r.store[id]);
    }
  }

  // ---------------------------------------------------------------------------
  // The two listings

  /** The tasks of `ts` whose `completed` is `b`, in the order of `ts`. */
  function FilterCompleted(ts: seq<Task>, b: bool): (r: seq<Task>)
    ensures forall x :: x in r <==> x in ts && x.completed == b
    ensures |r| <= |ts|
  {
    if ts == [] then []
    else (if ts[0].completed == b then [ts[0]] else []) + FilterCompleted(ts[1..], b)
  }

  /** Filtering splits over concatenation, so the kept tasks stay in the order
      they had: the result is a subsequence of `ts`. */
  lemma {:induction false} FilterDistributes(a: seq<Task>, c: seq<Task>, b: bool)
    ensures FilterCompleted(a + c, b) == FilterCompleted(a, b) + FilterCompleted(c, b)
  {
    if a == [] {
      assert a + c == c;
    } else {
      FilterDistributes(a[1..], c, b);
      SplitHead(a, c);
      FilterCons(a[0], a[1..] + c, b);
      FilterCons(a[0], a[1..], b);
      var head := if a[0].completed == b then [a[0]] else [];
      ConcatAssoc(head, FilterCompleted(a[1..], b), FilterCompleted(c, b));
    }
  }

  /** Filtering looks at the first task, then at the rest. */
  lemma FilterCons(t: Task, rest: seq<Task>, b: bool)
    ensures FilterCompleted([t] + rest, b) == (if t.completed == b then [t] else []) + FilterCompleted(rest, b)
  {
    assert ([t] + rest)[1..] == rest;
  }

  /** Filtering keeps the newest-first order. */
  lemma {:induction false} FilterKeepsNewestFirst(ts: seq<Task>, b: bool)
    requires NewestFirst(ts)
    ensures NewestFirst(FilterCompleted(ts, b))
  {
    if ts != [] {
      assert NewestFirst(ts[1..]);
      FilterKeepsNewestFirst(ts[1..], b);
      var rest := FilterCompleted(ts[1..], b);
      assert FilterCompleted(ts, b) == (if ts[0].completed == b then [ts[0]] + rest else rest);
      HeadIsNewest(ts);
      assert forall x :: x in rest ==> x in ts;
      ConsNewestFirst(ts[0], rest);
    }
  }

  /** Filtering keeps ids distinct. */
  lemma {:induction false} FilterKeepsDistinctIds(ts: seq<Task>, b: bool)
    requires DistinctIds(ts)
    ensures DistinctIds(FilterCompleted(ts, b))
  {
    if ts != [] {
      assert DistinctIds(ts[1..]);
      FilterKeepsDistinctIds(ts[1..], b);
      var rest := FilterCompleted(ts[1..], b);
      assert FilterCompleted(ts, b) == (if ts[0].completed == b then [ts[0]] + rest else rest);
      HeadIdIsUnique(ts);
      ConsDistinctIds(ts[0], rest);
    }
  }

  /** Filtering the full listing by `completed` answers the status query: the
      status listing is a subsequence of the full one. */
  lemma FilterOfListing(s: TaskStore, owner: UserId, all: seq<Task>, b: bool)
    requires Listing(all, s, owner, None)
    ensures Listing(FilterCompleted(all, b), s, owner, Some(b))
  {
    FilterKeepsNewestFirst(all, b);
    FilterKeepsDistinctIds(all, b);
  }

  /** No two tasks of the store were created at the same instant. */
  ghost predicate DistinctCreation(s: TaskStore) {
    forall i, j :: i in s && j in s && i != j ==> s[i].createdAt != s[j].createdAt
  }

  predicate StrictlyNewestFirst(ts: seq<Task>) {
    forall i, j :: 0 <= i < j < |ts| ==> ts[i].createdAt > ts[j].createdAt
  }

  /** The tail of a strictly newest-first sequence is everything but its head. */
  lemma StrictTail(a: seq<Task>)
    requires StrictlyNewestFirst(a) && a != []
    ensures forall x :: x in a[1..] <==> x in a && x != a[0]
  {
    forall x | x in a && x != a[0]
      ensures x in a[1..]
    {
      var k :| 0 <= k < |a| && a[k] == x;
      assert a[1..][k - 1] == x;
    }
    forall x | x in a[1..]
      ensures x != a[0]
    {
      var k :| 0 <= k < |a| - 1 && a[1..][k] == x;
      assert a[k + 1] == x;
    }
  }

  /** Two strictly newest-first sequences with the same elements are equal. */
  lemma {:induction false} StrictOrderUnique(a: seq<Task>, b: seq<Task>)
    requires StrictlyNewestFirst(a) && StrictlyNewestFirst(b)
    requires forall x :: x in a <==> x in b
    ensures a == b
  {
    if a == [] {
      assert forall k :: 0 <= k < |b| ==> b[k] !in a;
    } else {
      assert a[0] in b;
      var j :| 0 <= j < |b| && b[j] == a[0];
      assert b[0] in a;
      var i :| 0 <= i < |a| && a[i] == b[0];
      assert a[0].createdAt >= a[i].createdAt == b[0].createdAt >= b[j].createdAt == a[0].createdAt;
      assert i == 0;
      StrictTail(a);
      StrictTail(b);
      StrictOrderUnique(a[1..], b[1..]);
      assert a == [a[0]] + a[1..];
      assert b == [b[0]] + b[1..];
    }
  }

  /** In a store without two tasks created at the same instant, a listing is
      strictly newest first. */
  lemma ListingStrict(ts: seq<Task>, s: TaskStore, owner: UserId, c: Option<bool>)
    requires Listing(ts, s, owner, c) && DistinctCreation(s)
    ensures StrictlyNewestFirst(ts)
  {
    forall i, j | 0 <= i < j < |ts|
      ensures ts[i].createdAt > ts[j].createdAt
    {
      assert ts[i] in ts && ts[j] in ts;
      assert ts[i].id in s && s[ts[i].id] == ts[i];
      assert ts[j].id in s && s[ts[j].id] == ts[j];
    }
  }

  /** When creation times are distinct, the query has exactly one answer, so
      the status listing is the full listing filtered by `completed`. */
  lemma StatusListingIsFilterOfAll(s: TaskStore, owner: UserId, all: seq<Task>, byStatus: seq<Task>, b: bool)
    requires DistinctCreation(s)
    requires Listing(all, s, owner, None) && Listing(byStatus, s, owner, Some(b))
    ensures byStatus == FilterCompleted(all, b)
  {
    FilterOfListing(s, owner, all, b);
    ListingStrict(byStatus, s, owner, Some(b));
    ListingStrict(FilterCompleted(all, b), s, owner, Some(b));
    StrictOrderUnique(byStatus, FilterCompleted(all, b));
  }

  // ---------------------------------------------------------------------------
  // The reply channel

  /** Every reply of the task handlers is a well-formed envelope, and its
      transport status is 500 exactly when a store call threw; expected
      failures travel with transport status 200. */
  lemma RepliesWellFormed(s: TaskStore, caller: UserId, id: TaskId, body: TaskRequest, newId: TaskId,
                          now: Millis, fault: bool)
    ensures var r := GetTaskById(s, caller, id, fault);
            WellFormed(r.body) && (r.status == 500 <==> fault) && (r.status != 500 ==> r.status == 200)
    ensures var r := UpdateTask(s, caller, id, body, now, fault).reply;
            WellFormed(r.body) && (r.status == 500 <==> fault) && (r.status != 500 ==> r.status == 200)
    ensures var r := DeleteTask(s, caller, id, fault).reply;
            WellFormed(r.body) && (r.status == 500 <==> fault) && (r.status != 500 ==> r.status == 200)
    ensures var r := CreateTask(s, caller, body, newId, now, fault).reply;
            WellFormed(r.body) && (fault ==> r.status == 500) && (r.status != 500 ==> r.status == 200)
  {
  }
}
