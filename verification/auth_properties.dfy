/** Properties of registration and login across calls. */
module AuthProperties {
  import opened Wrappers
  import opened Response
  import opened TaskModel
  import opened AuthController

  /** Registration adds exactly one user, and only on success: with no fault,
      a new username and an id no user has. */
  lemma RegisterAddsOneUser(users: UserStore, username: string, password: string, newId: UserId, salt: string,
                            now: int, crypto: Crypto, fault: Option<string>)
    ensures var r := Register(users, username, password, newId, salt, now, crypto, fault);
            && (r.reply.body.success <==> fault.None? && username !in users && !IdTaken(users, newId))
            && (r.reply.body.success ==> r.users.Keys == users.Keys + {username} && |r.users| == |users| + 1)
            && (!r.reply.body.success ==> r.users == users)
  {
  }

  /** A username registers once: a second registration under the same name
      is refused with 400 and changes nothing, whatever its password. */
  lemma RegisterTwice(users: UserStore, username: string, pw1: string, pw2: string, id1: UserId, id2: UserId,
                      salt1: string, salt2: string, t1: int, t2: int, crypto: Crypto)
    requires username !in users && !IdTaken(users, id1)
    ensures var r1 := Register(users, username, pw1, id1, salt1, t1, crypto, None);
            var r2 := Register(r1.users, username, pw2, id2, salt2, t2, crypto, None);
            && r1.reply.body.success
            && r2 == Registration(r1.users, Json(Error(400, "User already exists")))
  {
  }

  /** The stored password is the digest of the password; it is the
      plaintext only when the hash returns its input unchanged. */
  lemma StoredPasswordIsDigest(users: UserStore, username: string, password: string, newId: UserId, salt: string,
                               now: int, crypto: Crypto)
    requires username !in users && !IdTaken(users, newId)
    ensures var r := Register(users, username, password, newId, salt, now, crypto, None);
            && r.users[username].password == crypto.hash(password, salt)
            && (r.users[username].password == password <==> crypto.hash(password, salt) == password)
  {
  }

  /** The unknown-user answer does not depend on the password, nor on how
      passwords are compared: the comparison is never consulted. */
  lemma UnknownUserIgnoresPassword(users: UserStore, username: string, p1: string, p2: string, now: int,
                                   c1: Crypto, c2: Crypto)
    requires username !in users
    ensures Login(users, username, p1, now, c1, None) == Login(users, username, p2, now, c2, None)
                                                     == Json(Error(404, "User not found"))
  {
  }

  /** The token of a login is the one a registration of the same user at the
      same instant would issue, signed for "1h", while the login reply
      reports an expiration time of "24h". */
  lemma LoginReportsLongerExpiry(users: UserStore, username: string, password: string, newId: UserId,
                                 salt: string, now: int, crypto: Crypto)
    requires username !in users && !IdTaken(users, newId)
    requires crypto.compare(password, crypto.hash(password, salt))
    ensures var reg := Register(users, username, password, newId, salt, now, crypto, None);
            var log := Login(reg.users, username, password, now, crypto, None);
            && reg.reply.body.data.Some? && log.body.data.Some?
            && log.body.data.value.token == reg.reply.body.data.value.token
            && reg.reply.body.data.value.expirationTime == "1h"
            && log.body.data.value.expirationTime == "24h"
  {
  }

  /** Logging in after registering succeeds when `compare` accepts the
      digest `hash` produced, and the token names the registered user with
      role "USER"; with the wrong password it is refused with 400 instead. */
  lemma RegisterThenLogin(users: UserStore, username: string, password: string, wrong: string, newId: UserId,
                          salt: string, t1: int, t2: int, crypto: Crypto)
    requires username !in users && !IdTaken(users, newId)
    requires crypto.compare(password, crypto.hash(password, salt))
    requires !crypto.compare(wrong, crypto.hash(password, salt))
    ensures var reg := Register(users, username, password, newId, salt, t1, crypto, None);
            && Login(reg.users, username, password, t2, crypto, None)
               == Json(Ok(Some(AuthData(crypto.sign(Claims(newId, "USER"), "1h", t2), "USER", "24h")),
                          Some("Login successful")))
            && Login(reg.users, username, wrong, t2, crypto, None) == Json(Error(400, "Invalid credentials"))
  {
  }

  /** Expected failures travel with transport status 200 and a well-formed
      envelope; only an exception gets transport status 500, with semantic
      code 500. For registration the exceptions are a store fault and the
      duplicate-key error of a taken id. */
  lemma AuthRepliesWellFormed(users: UserStore, username: string, password: string, newId: UserId,
                              salt: string, now: int, crypto: Crypto, fault: Option<string>)
    ensures var r := Register(users, username, password, newId, salt, now, crypto, fault).reply;
            && WellFormed(r.body)
            && (r.status == 500 <==> fault.Some? || (username !in users && IdTaken(users, newId)))
            && (r.status != 500 ==> r.status == 200)
            && (r.status == 500 ==> r.body.statusCode == 500)
    ensures var r := Login(users, username, password, now, crypto, fault);
            && WellFormed(r.body)
            && (r.status == 500 <==> fault.Some?) && (r.status != 500 ==> r.status == 200)
            && (r.status == 500 ==> r.body.statusCode == 500)
  {
  }

  /** No two users share an id. */
  predicate DistinctUserIds(users: UserStore) {
    forall m, n :: m in users && n in users && m != n ==> users[m].id != users[n].id
  }

  /** Registration keeps user ids distinct, so every token's `userId` names
      one user: a taken id is refused by the store instead of being shared. */
  lemma RegisterKeepsIdsDistinct(users: UserStore, username: string, password: string, newId: UserId,
                                 salt: string, now: int, crypto: Crypto, fault: Option<string>)
    requires DistinctUserIds(users)
    ensures DistinctUserIds(Register(users, username, password, newId, salt, now, crypto, fault).users)
  {
  }
}
