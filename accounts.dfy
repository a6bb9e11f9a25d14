/**
 * The `users` table (app.py:19-23) with its UNIQUE username, registration
 * (app.py:60-76) and the credential check of login (app.py:83-85). The
 * password hashing of werkzeug is a pair of uninterpreted functions that
 * only has to satisfy the law that a hash accepts the password it was made
 * from.
 */
module Accounts {
  import opened Wrappers
  import Ledger

  type UserId = Ledger.UserId

  /** A row `(username, password)` of `users`; the password column holds the hash. */
  datatype Account = Account(username: string, passwordHash: string)

  /** The random salt `generate_password_hash` draws, as an explicit input. */
  type Salt = nat

  /** `generate_password_hash` and `check_password_hash`, left abstract. */
  datatype Hasher = Hasher(generate: (string, Salt) -> string, check: (string, string) -> bool)

  /** A hash made from a password accepts that password, whatever the salt. */
  ghost predicate Sound(h: Hasher) {
    forall p: string, s: Salt :: h.check(h.generate(p, s), p)
  }

  type Users = map<UserId, Account>

  /** The UNIQUE constraint on `username` (app.py:21). */
  predicate UniqueNames(users: Users) {
    forall a, b :: a in users && b in users && users[a].username == users[b].username ==> a == b
  }

  /** Some user has that name. */
  predicate Taken(users: Users, username: string) {
    exists id :: id in users && users[id].username == username
  }

  /**
   * `SELECT * FROM users WHERE username=?` followed by `fetchone()` (app.py:83-84):
   * since names are unique, the one user with that name, if any.
   */
  function Lookup(users: Users, username: string): (r: Option<UserId>)
    requires UniqueNames(users)
    ensures forall id :: r == Some(id) <==> id in users && users[id].username == username
  {
    if Taken(users, username) then
      var id :| id in users && users[id].username == username;
      Some(id)
    else
      None
  }

  /**
   * `user and check_password_hash(user['password'], password)` (app.py:85):
   * the id of the user with that name, when the stored hash accepts the password.
   */
  function Authenticate(users: Users, h: Hasher, username: string, password: string): Option<UserId>
    requires UniqueNames(users)
  {
    match Lookup(users, username)
    case None => None
    case Some(id) => if h.check(users[id].passwordHash, password) then Some(id) else None
  }

  /** Authentication succeeds exactly for a registered name whose hash accepts the password, and yields that user. */
  lemma AuthenticateExactly(users: Users, h: Hasher, username: string, password: string, id: UserId)
    requires UniqueNames(users)
    ensures Authenticate(users, h, username, password) == Some(id) <==>
      id in users && users[id].username == username && h.check(users[id].passwordHash, password)
  {
    if id in users && users[id].username == username {
      assert Taken(users, username);
    }
  }

  /** The row registration inserts (app.py:65, 68). */
  function NewAccount(h: Hasher, username: string, password: string, salt: Salt): Account {
    Account(username, h.generate(password, salt))
  }

  /** Registering a fresh name under a fresh id keeps names unique. */
  lemma RegisterKeepsUnique(users: Users, id: UserId, a: Account)
    requires UniqueNames(users) && id !in users && !Taken(users, a.username)
    ensures UniqueNames(users[id := a])
  {
  }

  /** Right after registering, the same name and password log in as the new user. */
  lemma RegisterThenLogin(users: Users, h: Hasher, id: UserId, username: string, password: string, salt: Salt)
    requires Sound(h) && UniqueNames(users) && id !in users && !Taken(users, username)
    ensures UniqueNames(users[id := NewAccount(h, username, password, salt)])
    ensures Authenticate(users[id := NewAccount(h, username, password, salt)], h, username, password) == Some(id)
  {
    var after := users[id := NewAccount(h, username, password, salt)];
    RegisterKeepsUnique(users, id, NewAccount(h, username, password, salt));
    AuthenticateExactly(after, h, username, password, id);
  }

  /** Registering one name does not change how any other name logs in. */
  lemma RegisterKeepsOtherLogins(users: Users, h: Hasher, id: UserId, a: Account, username: string, password: string)
    requires UniqueNames(users) && id !in users && !Taken(users, a.username)
    requires username != a.username
    ensures UniqueNames(users[id := a])
    ensures Authenticate(users[id := a], h, username, password) == Authenticate(users, h, username, password)
  {
    RegisterKeepsUnique(users, id, a);
    var after := users[id := a];
    match Authenticate(users, h, username, password)
    case Some(u) =>
      AuthenticateExactly(users, h, username, password, u);
      AuthenticateExactly(after, h, username, password, u);
    case None =>
      match Authenticate(after, h, username, password)
      case Some(u) =>
        AuthenticateExactly(after, h, username, password, u);
        AuthenticateExactly(users, h, username, password, u);
      case None =>
  }

  /** The `users` table with its AUTOINCREMENT counter and the hash functions registration uses. */
  class Directory {
    var users: Users
    var lastId: UserId
    ghost var issued: set<UserId>
    const hasher: Hasher

    ghost predicate Valid()
      reads this
    {
      && UniqueNames(users)
      && users.Keys <= issued
      && (forall id :: id in issued ==> 1 <= id <= lastId)
      && lastId >= 0
    }

    /** `CREATE TABLE users`: no accounts yet. */
    constructor (hasher: Hasher)
      ensures Valid() && users == map[] && issued == {} && lastId == 0 && this.hasher == hasher
    {
      users := map[];
      lastId := 0;
      issued := {};
      this.hasher := hasher;
    }

    /** The credential check of login (app.py:83-85). */
    function Check(username: string, password: string): Option<UserId>
      requires Valid()
      reads this
    {
      Authenticate(users, hasher, username, password)
    }

    /**
     * `register` on POST (app.py:62-73): the INSERT fails with an
     * IntegrityError on a taken name, leaving the table and its counter as
     * they were; otherwise the new account gets the next id.
     */
    method Register(username: string, password: string, salt: Salt) returns (r: Option<UserId>)
      requires Valid()
      modifies this
      ensures Valid()
      ensures r.None? <==> Taken(old(users), username)
      ensures r.None? ==> users == old(users) && lastId == old(lastId) && issued == old(issued)
      ensures r.Some? ==> r.value == old(lastId) + 1 && r.value !in old(issued) && lastId == r.value
      ensures r.Some? ==> users == old(users)[r.value := NewAccount(hasher, username, password, salt)]
      ensures r.Some? ==> issued == old(issued) + {r.value}
    {
      if Lookup(users, username).Some? {
        return None;
      }
      var id := lastId + 1;
      RegisterKeepsUnique(users, id, NewAccount(hasher, username, password, salt));
      users := users[id := NewAccount(hasher, username, password, salt)];
      lastId := id;
      issued := issued + {id};
      r := Some(id);
    }
  }
}
