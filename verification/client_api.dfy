/** The client's mock task service: a list of plain objects kept in memory,
    with append, replace-by-id and remove-by-id. Each call yields the new
    list and the `data` it resolves with. */
module ClientApi {
  import opened Wrappers
  import opened Sequences

  /** The JSON values a task field holds; `===` on them is structural. */
  datatype Value = Num(n: int) | Str(s: string) | Bool(b: bool) | Null

  /** A plain object: field name to value. A missing field reads `undefined`. */
  type JsObject = map<string, Value>

  /** `o.id`; `None` is `undefined`. */
  function IdOf(o: JsObject): Option<Value> {
    if "id" in o then Some(o["id"]) else None
  }

  /** The list the mock starts from. */
  const InitialTasks: seq<JsObject> := [
    map["id" := Num(1), "title" := Str("Sample Task 1"), "completed" := Bool(false)],
    map["id" := Num(2), "title" := Str("Sample Task 2"), "completed" := Bool(true)]
  ]

  /** The list after a call, and the `data` of the value the call resolves with. */
  datatype Call<T> = Call(tasks: seq<JsObject>, data: T)

  /** `mockTasks.map(t => t.id === data.id ? data : t)`. */
  function ReplaceById(ts: seq<JsObject>, data: JsObject): (r: seq<JsObject>)
    ensures |r| == |ts|
    ensures forall i :: 0 <= i < |ts| ==> r[i] == (if IdOf(ts[i]) == IdOf(data) then data else ts[i])
  {
    if ts == [] then []
    else [if IdOf(ts[0]) == IdOf(data) then data else ts[0]] + ReplaceById(ts[1..], data)
  }

  /** `mockTasks.filter(t => t.id !== id)`. */
  function RemoveById(ts: seq<JsObject>, id: Option<Value>): (r: seq<JsObject>)
    ensures |r| <= |ts|
    ensures forall x :: x in r <==> x in ts && IdOf(x) != id
  {
    if ts == [] then []
    else (if IdOf(ts[0]) != id then [ts[0]] else []) + RemoveById(ts[1..], id)
  }

  /** `getAllTasks`: the current list, unchanged. */
  function GetAllTasks(ts: seq<JsObject>): (r: Call<seq<JsObject>>)
    ensures r.tasks == ts && r.data == ts
  {
    Call(ts, ts)
  }

  /** `createTask`: append `{id: Date.now(), ...data}`; a field of `data`,
      `id` included, overrides the generated one. */
  function CreateTask(ts: seq<JsObject>, data: JsObject, now: int): (r: Call<JsObject>)
    ensures |r.tasks| == |ts| + 1
    ensures r.tasks[..|ts|] == ts && r.tasks[|ts|] == r.data
    ensures r.data.Keys == data.Keys + {"id"}
    ensures forall k :: k in data ==> r.data[k] == data[k]
    ensures "id" !in data ==> r.data["id"] == Num(now)
  {
    var task := map["id" := Num(now)] + data;
    Call(ts + [task], task)
  }

  /** `updateTask`: every element with the id of `data` becomes `data`. */
  function UpdateTask(ts: seq<JsObject>, data: JsObject): (r: Call<JsObject>)
    ensures r.data == data
    ensures |r.tasks| == |ts|
    ensures forall i :: 0 <= i < |ts| && IdOf(ts[i]) == IdOf(data) ==> r.tasks[i] == data
    ensures forall i :: 0 <= i < |ts| && IdOf(ts[i]) != IdOf(data) ==> r.tasks[i] == ts[i]
  {
    Call(ReplaceById(ts, data), data)
  }

  /** `deleteTask`: drop every element with the given id. */
  function DeleteTask(ts: seq<JsObject>, id: Option<Value>): (r: Call<JsObject>)
    ensures r.data == map["message" := Str("Deleted")]
    ensures forall x :: x in r.tasks <==> x in ts && IdOf(x) != id
  {
    Call(RemoveById(ts, id), map["message" := Str("Deleted")])
  }

  // ---------------------------------------------------------------------------
  // List laws

  /** An update whose id no element carries leaves the list as it was. */
  lemma UpdateUnknownIdUnchanged(ts: seq<JsObject>, data: JsObject)
    requires forall i :: 0 <= i < |ts| ==> IdOf(ts[i]) != IdOf(data)
    ensures UpdateTask(ts, data).tasks == ts
  {
  }

  /** Updating twice with the same object is updating once. */
  lemma UpdateIdempotent(ts: seq<JsObject>, data: JsObject)
    ensures UpdateTask(UpdateTask(ts, data).tasks, data).tasks == UpdateTask(ts, data).tasks
  {
  }

  /** Removal keeps the order of what remains: it works piecewise on a
      concatenation. */
  lemma {:induction false} RemoveDistributes(a: seq<JsObject>, b: seq<JsObject>, id: Option<Value>)
    ensures RemoveById(a + b, id) == RemoveById(a, id) + RemoveById(b, id)
  {
    if a == [] {
      assert a + b == b;
    } else {
      RemoveDistributes(a[1..], b, id);
      SplitHead(a, b);
      RemoveCons(a[0], a[1..] + b, id);
      RemoveCons(a[0], a[1..], id);
      var head := if IdOf(a[0]) != id then [a[0]] else [];
      ConcatAssoc(head, RemoveById(a[1..], id), RemoveById(b, id));
    }
  }

  /** Removal looks at the first element, then at the rest. */
  lemma RemoveCons(x: JsObject, rest: seq<JsObject>, id: Option<Value>)
    ensures RemoveById([x] + rest, id) == (if IdOf(x) != id then [x] else []) + RemoveById(rest, id)
  {
    assert ([x] + rest)[1..] == rest;
  }

  /** A list none of whose elements carries `id` is left as it is. */
  lemma {:induction false} RemoveAbsent(ts: seq<JsObject>, id: Option<Value>)
    requires forall i :: 0 <= i < |ts| ==> IdOf(ts[i]) != id
    ensures RemoveById(ts, id) == ts
  {
    if ts != [] {
      RemoveAbsent(ts[1..], id);
    }
  }

  /** Deleting twice is deleting once. */
  lemma DeleteIdempotent(ts: seq<JsObject>, id: Option<Value>)
    ensures DeleteTask(DeleteTask(ts, id).tasks, id).tasks == DeleteTask(ts, id).tasks
  {
    var once := RemoveById(ts, id);
    forall i | 0 <= i < |once|
      ensures IdOf(once[i]) != id
    {
      assert once[i] in once;
    }
    RemoveAbsent(once, id);
  }

  /** Deleting the task just created, by the id it was given, restores the
      list, provided no earlier task had that id. */
  lemma CreateThenDelete(ts: seq<JsObject>, data: JsObject, now: int)
    requires forall i :: 0 <= i < |ts| ==> IdOf(ts[i]) != IdOf(CreateTask(ts, data, now).data)
    ensures var c := CreateTask(ts, data, now);
            DeleteTask(c.tasks, IdOf(c.data)).tasks == ts
  {
    var c := CreateTask(ts, data, now);
    assert c.tasks == ts + [c.data];
    RemoveDistributes(ts, [c.data], IdOf(c.data));
    RemoveAbsent(ts, IdOf(c.data));
    assert RemoveById([c.data], IdOf(c.data)) == [];
  }

  /** Reading after a create sees the old list with the created object
      appended. */
  lemma ReadAfterCreate(ts: seq<JsObject>, data: JsObject, now: int)
    ensures var c := CreateTask(ts, data, now);
            GetAllTasks(c.tasks).data == ts + [c.data]
  {
    var c := CreateTask(ts, data, now);
    assert c.tasks == c.tasks[..|ts|] + [c.tasks[|ts|]];
  }

  /** On the starting list, deleting id 1 leaves only the second sample task,
      and updating it replaces the first element alone. */
  lemma SampleList(data: JsObject)
    requires IdOf(data) == Some(Num(1))
    ensures DeleteTask(InitialTasks, Some(Num(1))).tasks == [InitialTasks[1]]
    ensures UpdateTask(InitialTasks, data).tasks == [data, InitialTasks[1]]
  {
    assert IdOf(InitialTasks[0]) == Some(Num(1)) && IdOf(InitialTasks[1]) == Some(Num(2));
    assert InitialTasks[1..][1..] == [];
  }
}
