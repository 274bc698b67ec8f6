/** Registration and login over the user collection. Password hashing,
    password comparison and token signing are the functions of a `Crypto`
    value; the salt, the new user's id and the clock are parameters, and
    `fault` carries the message of an exception thrown by the store. */
module AuthController {
  import opened Wrappers
  import opened Response
  import opened TaskModel

  datatype User = User(id: UserId, username: string, password: string, role: string)

  /** The user collection, looked up by username. */
  type UserStore = m: map<string, User> | forall n :: n in m ==> m[n].username == n witness map[]

  /** What a token is signed over. */
  datatype Claims = Claims(userId: UserId, role: string)

  /** `hash(password, salt)`, `compare(password, digest)` and
      `sign(claims, expiresIn, issuedAt)`; the signing secret is part of `sign`. */
  datatype Crypto = Crypto(
    hash: (string, string) -> string,
    compare: (string, string) -> bool,
    sign: (Claims, string, int) -> string)

  /** The payload of a successful registration or login. */
  datatype AuthData = AuthData(token: string, role: string, expirationTime: string)

  /** The users after a registration, and its reply. */
  datatype Registration = Registration(users: UserStore, reply: Reply<AuthData>)

  const DefaultRole := "USER"
  /** The lifetime every token is signed with. */
  const TokenLifetime := "1h"
  /** The start of the store's message when a write reuses a taken `_id`. */
  const DuplicateKeyMessage := "E11000 duplicate key error"

  /** Some stored user already has the id `id`. */
  predicate IdTaken(users: UserStore, id: UserId) {
    exists n :: n in users && users[n].id == id
  }

  /** `register`: a taken username is refused with 400. Otherwise the new
      user is saved with role "USER" and the hashed password, and a token is
      issued; a save whose id another user already has throws the store's
      duplicate-key error, which is answered with 500. */
  function Register(users: UserStore, username: string, password: string, newId: UserId, salt: string,
                    now: int, crypto: Crypto, fault: Option<string>): (r: Registration)
    ensures fault.Some? ==> r == Registration(users, ServerError("Server error: " + fault.value))
    ensures fault.None? && username in users ==> r == Registration(users, Json(Error(400, "User already exists")))
    ensures fault.None? && username !in users && IdTaken(users, newId) ==>
      r == Registration(users, ServerError("Server error: " + DuplicateKeyMessage))
    ensures fault.None? && username !in users && !IdTaken(users, newId) ==>
      && r.users == users[username := User(newId, username, crypto.hash(password, salt), DefaultRole)]
      && r.reply.status == 200
      && r.reply.body == Ok(Some(AuthData(crypto.sign(Claims(newId, DefaultRole), TokenLifetime, now),
                                          DefaultRole, TokenLifetime)),
                            Some("User registered successfully"))
  {
    if fault.Some? then Registration(users, ServerError("Server error: " + fault.value))
    else if username in users then Registration(users, Json(Error(400, "User already exists")))
    else if IdTaken(users, newId) then Registration(users, ServerError("Server error: " + DuplicateKeyMessage))
    else
      var user := User(newId, username, crypto.hash(password, salt), DefaultRole);
      var token := crypto.sign(Claims(user.id, user.role), TokenLifetime, now);
      Registration(users[username := user],
                   Json(Ok(Some(AuthData(token, user.role, TokenLifetime)), Some("User registered successfully"))))
  }

  /** `login`: an unknown username is refused with 404 before the password is
      compared; a mismatch is refused with 400. A token is signed for one
      hour, but the reply reports "24h". Login never changes the users. */
  function Login(users: UserStore, username: string, password: string, now: int, crypto: Crypto,
                 fault: Option<string>): (r: Reply<AuthData>)
    ensures fault.Some? ==> r == ServerError("Server error")
    ensures fault.None? && username !in users ==> r == Json(Error(404, "User not found"))
    ensures fault.None? && username in users && !crypto.compare(password, users[username].password) ==>
      r == Json(Error(400, "Invalid credentials"))
    ensures fault.None? && username in users && crypto.compare(password, users[username].password) ==>
      && r.status == 200
      && r.body == Ok(Some(AuthData(crypto.sign(Claims(users[username].id, users[username].role), TokenLifetime, now),
                                    users[username].role, "24h")),
                      Some("Login successful"))
  {
    if fault.Some? then ServerError("Server error")
    else if username !in users then Json(Error(404, "User not found"))
    else
      var user := users[username];
      if !crypto.compare(password, user.password) then Json(Error(400, "Invalid credentials"))
      else
        var token := crypto.sign(Claims(user.id, user.role), TokenLifetime, now);
        Json(Ok(Some(AuthData(token, user.role, "24h")), Some("Login successful")))
  }
}
