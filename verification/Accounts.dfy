/** The users table and the requests that write it, statement by statement. */
module Accounts {
  import opened Wrappers
  import opened Sessions

  datatype Answer =
    | Kept(user: User)                       // the caller keeps the token it has
    | Renewed(token: Token, user: User)
    | InvalidToken
    | AccountGone
    | WrongPassword
    | Conflict

  class UserTable {
    var users: map<int, User>
    var lastSalt: int

    /** No account's hash has a salt that is yet to be drawn. */
    ghost predicate Valid()
      reads this
    {
      forall u | u in users :: users[u].hash.salt <= lastSalt
    }

    constructor ()
      ensures users == START.users && lastSalt == START.lastSalt && Valid()
    {
      users, lastSalt := map[], 0;
    }

    /** Hashes a password into a hash that no account has, even one with the same password. */
    method HashPassword(password: string) returns (h: Hash)
      requires Valid()
      modifies this`lastSalt
      ensures Valid() && Verify(h, password) && h.salt == lastSalt == old(lastSalt) + 1
      ensures forall u | u in users :: users[u].hash != h
    {
      lastSalt := lastSalt + 1;
      h := Hash(password, lastSalt);
    }

    /** The conditional write: nothing happens unless version and verified hash are still current. */
    method WriteUser(id: int, name: Option<string>, hash: Option<Hash>, version: int, verified: Hash)
      returns (updated: Option<User>)
      requires Valid() && (hash.Some? ==> hash.value.salt <= lastSalt)
      modifies this`users
      ensures Valid()
      ensures updated == UpdateUser(old(users), id, name, hash, version, verified)
      ensures users == if updated.Some? then old(users)[id := updated.value] else old(users)
    {
      if id !in users { return None; }
      var u := users[id];
      if u.version != version { return None; }
      if hash.Some? && u.hash != verified { return None; }
      if name.Some? { u := u.(name := name.value); }
      if hash.Some? { u := u.(hash := hash.value, version := u.version + 1); }
      users := users[id := u];
      return Some(u);
    }

    /**
     * Changes name and password of the token's account, with nobody else writing meanwhile. Only the
     * columns asked for change; a password change must know the current one and yields the only
     * token the account answers to from then on.
     */
    method UpdateMe(token: Token, newName: Option<string>, change: Option<Change>) returns (answer: Answer)
      requires Valid()
      modifies this
      ensures Valid()
      ensures token.user !in old(users) <==> answer == AccountGone
      ensures token.user in old(users) ==> (old(users)[token.user].version != token.version <==> answer == InvalidToken)
      ensures answer == WrongPassword ==> change.Some? && !Verify(old(users)[token.user].hash, change.value.current)
      ensures answer != Conflict
      ensures !answer.Kept? && !answer.Renewed? ==> users == old(users)
      ensures answer.Kept? || answer.Renewed? ==> users == old(users)[token.user := answer.user]
      ensures answer.Kept? || answer.Renewed? ==> answer.user.email == old(users)[token.user].email
      ensures answer.Kept? || answer.Renewed? ==>
                answer.user.name == (if newName.Some? then newName.value else old(users)[token.user].name)
      ensures answer.Kept? ==>
                change.None? && answer.user.hash == old(users)[token.user].hash && answer.user.version == token.version
      ensures answer.Renewed? ==>
                change.Some? && Verify(old(users)[token.user].hash, change.value.current) &&
                Verify(answer.user.hash, change.value.next) && answer.user.version == token.version + 1 &&
                answer.token == Token(token.user, token.version + 1)
    {
      if token.user !in users { return AccountGone; }
      var row := users[token.user];
      if row.version != token.version { return InvalidToken; }
      var name: Option<string> := None;
      if newName.Some? && newName.value != row.name { name := newName; }
      var hash: Option<Hash> := None;
      if change.Some? {
        if !Verify(row.hash, change.value.current) { return WrongPassword; }
        var salted := HashPassword(change.value.next);
        hash := Some(salted);
      }
      if name.None? && hash.None? {
        assert users[token.user := row] == users;
        return Kept(row);
      }
      var updated := WriteUser(token.user, name, hash, token.version, row.hash);
      if updated.None? { return if hash.Some? then Conflict else InvalidToken; }
      if hash.None? { return Kept(updated.value); }
      return Renewed(Token(token.user, updated.value.version), updated.value);
    }
  }
}
