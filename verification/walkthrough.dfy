/** A session end to end: register, create a task, log in again, read the
    task back. Ownership is tied to the user id the tokens carry, not to one
    particular token. */
module Walkthrough {
  import opened Wrappers
  import opened Response
  import opened TaskModel
  import opened TaskController
  import opened AuthController

  lemma RegisterCreateLoginRead(users: UserStore, tasks: TaskStore, crypto: Crypto, password: string,
                                salt: string, uid: UserId, other: UserId, taskId: TaskId,
                                t0: int, t1: int, t2: int)
    requires "alice" !in users && !IdTaken(users, uid) && taskId !in tasks && other != uid
    requires crypto.compare(password, crypto.hash(password, salt))
    ensures var reg := Register(users, "alice", password, uid, salt, t0, crypto, None);
            var body := TaskRequest(Some("Buy milk"), None, None, None, None, None);
            var created := CreateTask(tasks, uid, body, taskId, t1, false);
            var log := Login(reg.users, "alice", password, t2, crypto, None);
            && reg.reply.body.success
            && created.reply.body.success
            && created.store[taskId].user == uid && !created.store[taskId].completed
            && log.body.success
            && log.body.data.value.token == crypto.sign(Claims(uid, "USER"), "1h", t2)
            && GetTaskById(created.store, uid, taskId, false) == Json(Ok(Some(created.store[taskId]), None))
            && GetTaskById(created.store, other, taskId, false) == Json(Error(401, NotAuthorizedMessage))
  {
  }
}
