/**
 * Accounts and access tokens on the server. A password change is a conditional write on the token
 * version and the password hash that was verified; requests of many clients interleave around it.
 */
module Sessions {
  import opened Wrappers

  // ---------------------------------------------------------------- data

  /** A password hash. The salt is drawn anew for each hash, so equal hashes come from one hashing. */
  datatype Hash = Hash(password: string, salt: int)

  predicate Verify(h: Hash, password: string) {
    h.password == password
  }

  datatype User = User(email: string, name: string, hash: Hash, version: int)

  /** A signed access token. Only tokens the server issued carry a valid signature. */
  datatype Token = Token(user: int, version: int)

  /** A token with the hash its holder's password was checked against, or set as, before it was issued. */
  datatype Issued = Issued(token: Token, checked: Hash, password: string)

  datatype Change = Change(current: string, next: string)

  /** What an update asks for: a name, a password change, both or neither. */
  datatype Wish = Wish(newName: Option<string>, change: Option<Change>)

  /** A request between two of its database or hashing steps, with the account row it read. */
  datatype Request =
    | LoggingIn(id: int, row: User, password: string)
    | Issuing(id: int, row: User, password: string)
    | Updating(id: int, row: User, wish: Wish)
    | Writing(id: int, row: User, wish: Wish, name: Option<string>, hash: Option<Hash>)

  /**
   * A commit with what its request asked for. An update also records the hash it verified, the name
   * it had read, and the name stored just before it committed.
   */
  datatype Commit =
    | Registered(user: int, givenName: string, first: Hash)
    | Updated(user: int, wish: Wish, verified: Hash, readName: string, nameBefore: string)

  datatype State = State(
    users: map<int, User>, lastUser: int, lastSalt: int, requests: map<int, Request>, issued: seq<Issued>,
    log: seq<Commit>)

  const START := State(map[], 0, 0, map[], [], [])

  datatype Step =
    | Register(r: int, email: string, name: string, password: string)
    | Login(r: int, email: string, found: int, password: string)
    | CheckPassword(r: int)
    | Issue(r: int)
    | Update(r: int, token: Token, wish: Wish)
    | Prepare(r: int)
    | Write(r: int)

  // ---------------------------------------------------------------- what the server does

  predicate Signed(s: State, token: Token) {
    exists i | 0 <= i < |s.issued| :: s.issued[i].token == token
  }

  /** VerifyToken: the signature is good and the version is still the account's. */
  predicate Accepts(s: State, token: Token) {
    Signed(s, token) && token.user in s.users && token.version == s.users[token.user].version
  }

  /** Which columns an update writes: only the ones that were asked for and differ. */
  function Wanted(row: User, wish: Wish, salt: int): (Option<string>, Option<Hash>) {
    (if wish.newName.Some? && wish.newName.value != row.name then wish.newName else None,
     if wish.change.Some? then Some(Hash(wish.change.value.next, salt)) else None)
  }

  /** The conditional UPDATE: writes the given columns if version and verified hash are still current. */
  function UpdateUser(
    users: map<int, User>, id: int, name: Option<string>, hash: Option<Hash>, version: int,
    verified: Hash): Option<User>
  {
    if id !in users || users[id].version != version || (hash.Some? && users[id].hash != verified) then None
    else
      var u := users[id];
      Some(u.(name := if name.Some? then name.value else u.name,
              hash := if hash.Some? then hash.value else u.hash,
              version := u.version + if hash.Some? then 1 else 0))
  }

  function Drop(s: State, r: int): State {
    s.(requests := s.requests - {r})
  }

  predicate EmailTaken(s: State, email: string) {
    exists u | u in s.users :: s.users[u].email == email
  }

  /** The state after a step, or None when there is nothing to take it. A refused request just ends. */
  function Take(s: State, step: Step): Option<State> {
    match step
    case Register(r, email, name, password) =>
      if r in s.requests || EmailTaken(s, email) then None
      else
        var id, hash := s.lastUser + 1, Hash(password, s.lastSalt + 1);
        var row := User(email, name, hash, 0);
        Some(s.(users := s.users[id := row], lastUser := id, lastSalt := s.lastSalt + 1,
                requests := s.requests[r := Issuing(id, row, password)], log := s.log + [Registered(id, name, hash)]))
    case Login(r, email, found, password) =>
      if r in s.requests || found !in s.users || s.users[found].email != email then None
      else Some(s.(requests := s.requests[r := LoggingIn(found, s.users[found], password)]))
    case CheckPassword(r) =>
      if r !in s.requests || !s.requests[r].LoggingIn? then None
      else
        var LoggingIn(id, row, password) := s.requests[r];
        if Verify(row.hash, password) then Some(s.(requests := s.requests[r := Issuing(id, row, password)]))
          else Some(Drop(s, r))
    case Issue(r) =>
      if r !in s.requests || !s.requests[r].Issuing? then None
      else
        var Issuing(id, row, password) := s.requests[r];
        Some(Drop(s, r).(issued := s.issued + [Issued(Token(id, row.version), row.hash, password)]))
    case Update(r, token, wish) =>
      if r in s.requests || !Accepts(s, token) then None
      else Some(s.(requests := s.requests[r := Updating(token.user, s.users[token.user], wish)]))
    case Prepare(r) =>
      if r !in s.requests || !s.requests[r].Updating? then None
      else
        var Updating(id, row, wish) := s.requests[r];
        if wish.change.Some? && !Verify(row.hash, wish.change.value.current) then Some(Drop(s, r))
        else
          var (name, hash) := Wanted(row, wish, s.lastSalt + 1);
          if name.None? && hash.None? then Some(Drop(s, r))
          else Some(s.(requests := s.requests[r := Writing(id, row, wish, name, hash)],
                       lastSalt := if hash.Some? then s.lastSalt + 1 else s.lastSalt))
    case Write(r) =>
      if r !in s.requests || !s.requests[r].Writing? then None
      else
        var Writing(id, row, wish, name, hash) := s.requests[r];
        var updated := UpdateUser(s.users, id, name, hash, row.version, row.hash);
        if updated.None? then Some(Drop(s, r))
        else
          var rest :=
            if hash.Some? then s.requests[r := Issuing(id, updated.value, hash.value.password)] else s.requests - {r};
          var commit := Updated(id, wish, row.hash, row.name, s.users[id].name);
          Some(s.(users := s.users[id := updated.value], requests := rest, log := s.log + [commit]))
  }

  // ---------------------------------------------------------------- what the log says

  /** The commit asked for another name than the one it had read. */
  predicate Renames(e: Commit) {
    e.Updated? && e.wish.newName.Some? && e.wish.newName.value != e.readName
  }

  predicate ChangesPassword(e: Commit, user: int) {
    e.user == user && e.Updated? && e.wish.change.Some?
  }

  /** The name given by the account's latest commit that asked for another name than it had read. */
  function LastName(log: seq<Commit>, user: int): Option<string> {
    if log == [] then None
    else
      var e, rest := log[|log| - 1], log[..|log| - 1];
      if e.user == user && e.Registered? then Some(e.givenName)
      else if e.user == user && Renames(e) then e.wish.newName
      else LastName(rest, user)
  }

  /** The password given by the account's latest commit that asked for a password change. */
  function LastPassword(log: seq<Commit>, user: int): Option<string> {
    if log == [] then None
    else
      var e, rest := log[|log| - 1], log[..|log| - 1];
      if e.user == user && e.Registered? then Some(e.first.password)
      else if ChangesPassword(e, user) then Some(e.wish.change.value.next)
      else LastPassword(rest, user)
  }

  /** How many password changes of the account have committed. */
  function Changes(log: seq<Commit>, user: int): nat {
    if log == [] then 0
    else Changes(log[..|log| - 1], user) + if ChangesPassword(log[|log| - 1], user) then 1 else 0
  }

  /** The account's latest commit that asked for a name at all. */
  function LastNaming(log: seq<Commit>, user: int): Option<Commit> {
    if log == [] then None
    else
      var e := log[|log| - 1];
      if e.user == user && (e.Registered? || e.wish.newName.Some?) then Some(e) else LastNaming(log[..|log| - 1], user)
  }

  function NameAsked(e: Commit): string
    requires e.Registered? || e.wish.newName.Some?
  {
    if e.Registered? then e.givenName else e.wish.newName.value
  }

  /** The commit asked for the name it had read, and another name was stored in the meantime. */
  predicate Overtaken(e: Commit) {
    e.Updated? && e.wish.newName == Some(e.readName) && e.nameBefore != e.readName
  }

  lemma LogExtends(log: seq<Commit>, e: Commit)
    ensures (log + [e])[..|log|] == log
  {
  }

  // ---------------------------------------------------------------- invariants

  /** A row read earlier: either the password changed since, or version and hash are still current. */
  ghost predicate Known(s: State, id: int, row: User) {
    id in s.users && row.version <= s.users[id].version && row.hash.salt <= s.lastSalt &&
    (row.version == s.users[id].version ==> row.hash == s.users[id].hash)
  }

  ghost predicate RequestOk(s: State, r: int)
    requires r in s.requests
  {
    var q := s.requests[r];
    Known(s, q.id, q.row) &&
    (q.Issuing? ==> Verify(q.row.hash, q.password)) &&
    (q.Writing? ==>
       (q.name, q.hash) == Wanted(q.row, q.wish, if q.hash.Some? then q.hash.value.salt else 0) &&
       (q.hash.Some? ==> q.row.hash.salt < q.hash.value.salt <= s.lastSalt))
  }

  /** A token the account still answers to was issued for the password it has now. */
  ghost predicate IssuedOk(s: State, i: Issued) {
    Verify(i.checked, i.password) && i.token.user in s.users && i.token.version <= s.users[i.token.user].version &&
    (i.token.version == s.users[i.token.user].version ==> i.checked == s.users[i.token.user].hash)
  }

  ghost predicate UserOk(s: State, id: int)
    requires id in s.users
  {
    var u, naming := s.users[id], LastNaming(s.log, id);
    id <= s.lastUser && u.hash.salt <= s.lastSalt && LastName(s.log, id) == Some(u.name) &&
    LastPassword(s.log, id) == Some(u.hash.password) && Changes(s.log, id) == u.version &&
    naming.Some? && (naming.value.Registered? || naming.value.wish.newName.Some?) &&
    u.name == if Overtaken(naming.value) then naming.value.nameBefore else NameAsked(naming.value)
  }

  /** Password changes replace hashes by ever newer ones. */
  ghost predicate LogOk(s: State) {
    forall j | 0 <= j < |s.log| ::
      s.log[j].user in s.users &&
      (ChangesPassword(s.log[j], s.log[j].user) ==>
         s.log[j].verified.salt < s.users[s.log[j].user].hash.salt &&
         forall i | 0 <= i < j ::
           ChangesPassword(s.log[i], s.log[j].user) ==> s.log[i].verified.salt < s.log[j].verified.salt)
  }

  ghost predicate Inv(s: State) {
    (forall r | r in s.requests :: RequestOk(s, r)) && (forall i | 0 <= i < |s.issued| :: IssuedOk(s, s.issued[i])) &&
    (forall id | id in s.users :: UserOk(s, id)) && LogOk(s)
  }

  lemma UnusedIds(s: State)
    requires Inv(s)
    ensures s.lastUser + 1 !in s.users && Changes(s.log, s.lastUser + 1) == 0
  {
    forall id | id in s.users ensures id <= s.lastUser { assert UserOk(s, id); }
    forall j | 0 <= j < |s.log| ensures s.log[j].user != s.lastUser + 1 {}
    NothingLogged(s.log, s.lastUser + 1);
  }

  lemma {:induction false} NothingLogged(log: seq<Commit>, user: int)
    requires forall j | 0 <= j < |log| :: log[j].user != user
    ensures Changes(log, user) == 0
  {
    if log != [] { NothingLogged(log[..|log| - 1], user); }
  }

  /** Logging a commit of an account leaves what the log says of the others alone. */
  lemma OthersKeepTheirLog(log: seq<Commit>, e: Commit, id: int)
    requires e.user != id
    ensures LastName(log + [e], id) == LastName(log, id) && LastPassword(log + [e], id) == LastPassword(log, id)
    ensures LastNaming(log + [e], id) == LastNaming(log, id) && Changes(log + [e], id) == Changes(log, id)
  {
    LogExtends(log, e);
  }

  lemma RegisteredUserIsOk(s: State, name: string, hash: Hash)
    requires Changes(s.log, s.lastUser + 1) == 0
    ensures var e := Registered(s.lastUser + 1, name, hash);
            LastName(s.log + [e], e.user) == Some(name) && LastPassword(s.log + [e], e.user) == Some(hash.password) &&
            LastNaming(s.log + [e], e.user) == Some(e) && Changes(s.log + [e], e.user) == 0
  {
    LogExtends(s.log, Registered(s.lastUser + 1, name, hash));
  }

  lemma RegisterKeeps(s: State, r: int, email: string, name: string, password: string)
    requires Inv(s) && Take(s, Register(r, email, name, password)).Some?
    ensures Inv(Take(s, Register(r, email, name, password)).value)
  {
    var t := Take(s, Register(r, email, name, password)).value;
    var e := Registered(s.lastUser + 1, name, Hash(password, s.lastSalt + 1));
    UnusedIds(s);
    RegisteredUserIsOk(s, name, e.first);
    hide LastName, LastPassword, LastNaming, Changes, EmailTaken;
    forall id | id in s.users ensures UserOk(t, id) {
      assert UserOk(s, id);
      OthersKeepTheirLog(s.log, e, id);
    }
    assert UserOk(t, s.lastUser + 1);
    forall x | x in t.requests ensures RequestOk(t, x) { if x != r { assert RequestOk(s, x); } }
    forall i | 0 <= i < |t.issued| ensures IssuedOk(t, t.issued[i]) { assert IssuedOk(s, s.issued[i]); }
    LogStaysOk(s, t, e);
  }

  /** The log stays in order when a commit is added and no hash is replaced by an older one. */
  lemma LogStaysOk(s: State, t: State, e: Commit)
    requires LogOk(s) && t.log == s.log + [e] && e.user in t.users
    requires forall id | id in s.users :: id in t.users && s.users[id].hash.salt <= t.users[id].hash.salt
    requires ChangesPassword(e, e.user) ==>
               e.user in s.users && s.users[e.user].hash.salt <= e.verified.salt < t.users[e.user].hash.salt
    ensures LogOk(t)
  {
  }

  /** What the log says of an account after a commit of its own. */
  lemma OwnLog(log: seq<Commit>, e: Commit)
    requires e.Updated?
    ensures LastName(log + [e], e.user) == if Renames(e) then e.wish.newName else LastName(log, e.user)
    ensures LastPassword(log + [e], e.user) ==
            if e.wish.change.Some? then Some(e.wish.change.value.next) else LastPassword(log, e.user)
    ensures LastNaming(log + [e], e.user) == if e.wish.newName.Some? then Some(e) else LastNaming(log, e.user)
    ensures Changes(log + [e], e.user) == Changes(log, e.user) + if e.wish.change.Some? then 1 else 0
  {
    LogExtends(log, e);
  }

  predicate Commits(s: State, r: int) {
    r in s.requests && s.requests[r].Writing? &&
    var q := s.requests[r];
    UpdateUser(s.users, q.id, q.name, q.hash, q.row.version, q.row.hash).Some?
  }

  lemma WriterStaysOk(s: State, r: int)
    requires Inv(s) && Commits(s, r)
    ensures UserOk(Take(s, Write(r)).value, s.requests[r].id)
  {
    assert RequestOk(s, r);
    var Writing(id, row, wish, name, hash) := s.requests[r];
    assert UserOk(s, id);
    OwnLog(s.log, Updated(id, wish, row.hash, row.name, s.users[id].name));
    hide LastName, LastPassword, LastNaming, Changes, IssuedOk, LogOk;
  }

  lemma WriteKeeps(s: State, r: int)
    requires Inv(s) && Take(s, Write(r)).Some?
    ensures Inv(Take(s, Write(r)).value)
  {
    hide LastName, LastPassword, LastNaming, Changes, Overtaken, NameAsked;
    var t := Take(s, Write(r)).value;
    assert RequestOk(s, r);
    var Writing(id, row, wish, name, hash) := s.requests[r];
    if Commits(s, r) {
      var e := Updated(id, wish, row.hash, row.name, s.users[id].name);
      WriterStaysOk(s, r);
      forall x | x in t.users && x != id ensures UserOk(t, x) {
        assert UserOk(s, x);
        OthersKeepTheirLog(s.log, e, x);
      }
      hide UserOk;
      forall x | x in t.requests ensures RequestOk(t, x) { if x != r { assert RequestOk(s, x); } }
      forall i | 0 <= i < |t.issued| ensures IssuedOk(t, t.issued[i]) { assert IssuedOk(s, s.issued[i]); }
      LogStaysOk(s, t, e);
    } else {
      DropKeeps(s, r);
    }
  }

  lemma DropKeeps(s: State, r: int)
    requires Inv(s)
    ensures Inv(Drop(s, r))
  {
    var t := Drop(s, r);
    forall x | x in t.requests ensures RequestOk(t, x) { assert RequestOk(s, x); }
    forall i | 0 <= i < |t.issued| ensures IssuedOk(t, t.issued[i]) { assert IssuedOk(s, s.issued[i]); }
    forall id | id in t.users ensures UserOk(t, id) { assert UserOk(s, id); }
  }

  /** Steps that change no account and commit nothing. */
  lemma OtherStepKeeps(s: State, t: State, r: int)
    requires Inv(s) && t.users == s.users && t.log == s.log && t.lastUser == s.lastUser && t.lastSalt >= s.lastSalt
    requires forall x | x in t.requests && x != r :: x in s.requests && t.requests[x] == s.requests[x]
    requires r in t.requests ==> RequestOk(t, r)
    requires forall i | 0 <= i < |t.issued| ::
               (i < |s.issued| && t.issued[i] == s.issued[i]) || IssuedOk(t, t.issued[i])
    ensures Inv(t)
  {
    forall x | x in t.requests ensures RequestOk(t, x) { if x != r { assert RequestOk(s, x); } }
    forall i | 0 <= i < |t.issued|
      ensures IssuedOk(t, t.issued[i])
    {
      if i < |s.issued| { assert IssuedOk(s, s.issued[i]); }
    }
    forall id | id in t.users ensures UserOk(t, id) { assert UserOk(s, id); }
  }

  lemma StepKeeps(s: State, step: Step)
    requires Inv(s) && Take(s, step).Some?
    ensures Inv(Take(s, step).value)
  {
    var t := Take(s, step).value;
    match step
    case Register(r, email, name, password) => RegisterKeeps(s, r, email, name, password);
    case Write(r) => WriteKeeps(s, r);
    case Login(r, _, found, _) =>
      assert UserOk(s, found);
      OtherStepKeeps(s, t, r);
    case CheckPassword(r) =>
      assert RequestOk(s, r);
      OtherStepKeeps(s, t, r);
    case Issue(r) =>
      assert RequestOk(s, r);
      OtherStepKeeps(s, t, r);
    case Update(r, token, _) =>
      assert UserOk(s, token.user);
      OtherStepKeeps(s, t, r);
    case Prepare(r) =>
      assert RequestOk(s, r);
      OtherStepKeeps(s, t, r);
  }

  // ---------------------------------------------------------------- every interleaving

  ghost predicate IsRun(states: seq<State>, steps: seq<Step>) {
    |states| == |steps| + 1 && states[0] == START &&
    forall i | 0 <= i < |steps| :: Take(states[i], steps[i]) == Some(states[i + 1])
  }

  lemma {:induction false} RunKeeps(states: seq<State>, steps: seq<Step>, n: nat)
    requires IsRun(states, steps) && n <= |steps|
    ensures Inv(states[n])
  {
    hide Take, RequestOk, IssuedOk, UserOk;
    if n > 0 {
      RunKeeps(states, steps, n - 1);
      assert Take(states[n - 1], steps[n - 1]) == Some(states[n - 1 + 1]);
      StepKeeps(states[n - 1], steps[n - 1]);
    }
  }

  /**
   * Whoever holds a token the server accepts had supplied the password the account has now when
   * the token was issued: it was checked against, or set as, the very hash stored now.
   */
  lemma AcceptedTokensKnowThePassword(states: seq<State>, steps: seq<Step>, n: nat, i: int)
    requires IsRun(states, steps) && n <= |steps| && 0 <= i < |states[n].issued| &&
             Accepts(states[n], states[n].issued[i].token)
    ensures var user := states[n].users[states[n].issued[i].token.user];
            states[n].issued[i].checked == user.hash && Verify(user.hash, states[n].issued[i].password)
  {
    RunKeeps(states, steps, n);
    assert IssuedOk(states[n], states[n].issued[i]);
  }

  /** No other token is accepted: one of the account's tokens was issued for the password it has now. */
  lemma AcceptedTokensWereIssued(states: seq<State>, steps: seq<Step>, n: nat, token: Token)
    requires IsRun(states, steps) && n <= |steps| && Accepts(states[n], token)
    ensures token.user in states[n].users
    ensures exists i | 0 <= i < |states[n].issued| ::
              states[n].issued[i].token == token && states[n].issued[i].checked == states[n].users[token.user].hash &&
              states[n].issued[i].password == states[n].users[token.user].hash.password
  {
    var i :| 0 <= i < |states[n].issued| && states[n].issued[i].token == token;
    AcceptedTokensKnowThePassword(states, steps, n, i);
  }

  lemma StepForgetsNothing(s: State, step: Step, id: int)
    requires Inv(s) && Take(s, step).Some?
    ensures s.issued <= Take(s, step).value.issued
    ensures id in s.users ==>
              id in Take(s, step).value.users && s.users[id].version <= Take(s, step).value.users[id].version
  {
    UnusedIds(s);
    hide Inv;
  }

  /** Whatever happens, accounts stay, their versions never fall, and issued tokens stay issued. */
  lemma {:induction false} NothingIsForgotten(states: seq<State>, steps: seq<Step>, m: nat, n: nat, id: int)
    requires IsRun(states, steps) && m <= n <= |steps|
    ensures states[m].issued <= states[n].issued
    ensures id in states[m].users ==>
              id in states[n].users && states[m].users[id].version <= states[n].users[id].version
  {
    hide Take, Inv;
    if m < n {
      NothingIsForgotten(states, steps, m, n - 1, id);
      assert Take(states[n - 1], steps[n - 1]) == Some(states[n - 1 + 1]);
      RunKeeps(states, steps, n - 1);
      StepForgetsNothing(states[n - 1], steps[n - 1], id);
    }
  }

  /**
   * A token that is accepted is accepted exactly until its account's next password change commits; and one that
   * was issued but is not accepted never is again.
   */
  lemma AcceptedUntilPasswordChange(states: seq<State>, steps: seq<Step>, m: nat, n: nat, token: Token)
    requires IsRun(states, steps) && m <= n <= |steps|
    ensures Accepts(states[m], token) ==>
              (Accepts(states[n], token) <==>
               Changes(states[n].log, token.user) == Changes(states[m].log, token.user))
    ensures !Accepts(states[m], token) && (exists i | 0 <= i < |states[m].issued| :: states[m].issued[i].token == token)
            ==> !Accepts(states[n], token)
  {
    RunKeeps(states, steps, m);
    RunKeeps(states, steps, n);
    NothingIsForgotten(states, steps, m, n, token.user);
    if i :| 0 <= i < |states[m].issued| && states[m].issued[i].token == token {
      assert IssuedOk(states[m], states[m].issued[i]);
      assert states[n].issued[i] == states[m].issued[i];
      assert UserOk(states[m], token.user) && UserOk(states[n], token.user);
    }
  }

  /**
   * A token is accepted when it is issued exactly if no password change of its account has committed since the
   * request read the account or, after its own password change, wrote it.
   */
  lemma IssuedTokenIsAccepted(states: seq<State>, steps: seq<Step>, n: nat, r: int)
    requires IsRun(states, steps) && n < |steps| && steps[n] == Issue(r)
    ensures r in states[n].requests && states[n].requests[r].Issuing? && r !in states[n + 1].requests
    ensures var q, issued := states[n].requests[r], states[n + 1].issued;
            |issued| == |states[n].issued| + 1 && issued[..|states[n].issued|] == states[n].issued &&
            var token := issued[|issued| - 1].token;
            token.user == q.id && q.id in states[n].users &&
            (Accepts(states[n + 1], token) <==> q.row.version == Changes(states[n].log, q.id))
  {
    RunKeeps(states, steps, n);
    assert Take(states[n], steps[n]) == Some(states[n + 1]);
    assert RequestOk(states[n], r);
    var q, issued := states[n].requests[r], states[n + 1].issued;
    assert UserOk(states[n], q.id);
    assert issued[|issued| - 1].token == Token(q.id, q.row.version);
  }

  /**
   * With nobody in between, a login signs in exactly if the password is that of the stored hash: the server then
   * issues a token of the account and accepts it, and otherwise ends the request without one.
   */
  lemma LoginSucceedsExactly(
    states: seq<State>, steps: seq<Step>, n: nat, r: int, email: string, id: int, password: string)
    requires IsRun(states, steps) && n <= |steps| && r !in states[n].requests
    ensures var s := states[n];
            var s1 := Take(s, Login(r, email, id, password));
            (s1.Some? <==> id in s.users && s.users[id].email == email) &&
            (s1.Some? ==>
               var s2 := Take(s1.value, CheckPassword(r));
               s2.Some? &&
               if s.users[id].hash.password == password
               then var s3 := Take(s2.value, Issue(r));
                    s3.Some? && |s3.value.issued| == |s.issued| + 1 && s3.value == s.(issued := s3.value.issued) &&
                    s3.value.issued[|s.issued|].token.user == id &&
                    Accepts(s3.value, s3.value.issued[|s.issued|].token)
               else s2.value == s && Take(s2.value, Issue(r)).None?)
  {
    var s := states[n];
    RunKeeps(states, steps, n);
    if id in s.users && s.users[id].email == email {
      assert UserOk(s, id);
      var s1 := Take(s, Login(r, email, id, password)).value;
      assert s1.requests - {r} == s.requests;
      var s2 := Take(s1, CheckPassword(r)).value;
      assert s2.requests - {r} == s.requests;
    }
  }

  /** Registering succeeds exactly if no account has the e-mail, and its token is accepted at once. */
  lemma RegistrationSucceedsExactly(
    states: seq<State>, steps: seq<Step>, n: nat, r: int, email: string, name: string, password: string)
    requires IsRun(states, steps) && n <= |steps| && r !in states[n].requests
    ensures var s, id := states[n], states[n].lastUser + 1;
            var s1 := Take(s, Register(r, email, name, password));
            (s1.Some? <==> forall u | u in s.users :: s.users[u].email != email) &&
            (s1.Some? ==>
               id !in s.users && s1.value.users.Keys == s.users.Keys + {id} &&
               (forall u | u in s.users :: s1.value.users[u] == s.users[u]) &&
               s1.value.users[id].email == email && s1.value.users[id].name == name &&
               s1.value.users[id].hash.password == password &&
               (forall u | u in s.users :: s.users[u].hash != s1.value.users[id].hash) &&
               var s2 := Take(s1.value, Issue(r));
               s2.Some? && |s2.value.issued| == |s.issued| + 1 && s2.value.issued[|s.issued|].token.user == id &&
               Accepts(s2.value, s2.value.issued[|s.issued|].token))
  {
    var s, id := states[n], states[n].lastUser + 1;
    RunKeeps(states, steps, n);
    UnusedIds(s);
    forall u | u in s.users ensures s.users[u].hash.salt <= s.lastSalt { assert UserOk(s, u); }
    var s1 := Take(s, Register(r, email, name, password));
    if s1.Some? {
      var s2 := Take(s1.value, Issue(r)).value;
      assert s2.issued[|s.issued|].token == Token(id, 0);
    }
  }

  /**
   * With nobody in between, an update needs an accepted token, and the account's current password if it is to
   * change it. Then exactly the columns asked for change, and a new password's token is accepted.
   */
  lemma UpdateSucceedsExactly(states: seq<State>, steps: seq<Step>, n: nat, r: int, token: Token, wish: Wish)
    requires IsRun(states, steps) && n <= |steps| && r !in states[n].requests
    ensures var s := states[n];
            var s1 := Take(s, Update(r, token, wish));
            (s1.Some? <==> Accepts(s, token)) &&
            (s1.Some? ==>
               token.user in s.users &&
               var u, s2 := s.users[token.user], Take(s1.value, Prepare(r));
               var named := wish.newName.Some? && wish.newName.value != u.name;
               s2.Some? &&
               if (wish.change.Some? && wish.change.value.current != u.hash.password) || (wish.change.None? && !named)
               then s2.value == s
               else Written(s, Take(s2.value, Write(r)), r, token.user, wish))
  {
    var s := states[n];
    RunKeeps(states, steps, n);
    if Accepts(s, token) {
      assert UserOk(s, token.user);
      var s1 := Take(s, Update(r, token, wish)).value;
      assert s1.requests - {r} == s.requests;
      var s2 := Take(s1, Prepare(r)).value;
      assert s2.requests - {r} == s.requests;
    }
  }

  /** The account has the name and password asked for, or else the old ones; a changed password yields a good token. */
  ghost predicate Written(s: State, t: Option<State>, r: int, id: int, wish: Wish)
    requires id in s.users
  {
    t.Some? && id in t.value.users && t.value.users == s.users[id := t.value.users[id]] &&
    var u, v := s.users[id], t.value.users[id];
    v.email == u.email && v.name == (if wish.newName.Some? then wish.newName.value else u.name) &&
    if wish.change.None? then v.hash == u.hash && v.version == u.version && t.value.requests == s.requests
    else
      v.hash.password == wish.change.value.next && v.hash != u.hash &&
      var t2 := Take(t.value, Issue(r));
      t2.Some? && |t2.value.issued| == |s.issued| + 1 && Accepts(t2.value, t2.value.issued[|s.issued|].token)
  }

  /** A committed password change revokes every token issued before, the caller's own included. */
  lemma PasswordChangeRevokes(states: seq<State>, steps: seq<Step>, n: nat, r: int, i: int)
    requires IsRun(states, steps) && n < |steps| && steps[n] == Write(r) && states[n + 1].log != states[n].log
    requires r in states[n].requests && states[n].requests[r].Writing? && states[n].requests[r].hash.Some?
    requires 0 <= i < |states[n].issued| && states[n].issued[i].token.user == states[n].requests[r].id
    ensures !Accepts(states[n + 1], states[n].issued[i].token)
  {
    RunKeeps(states, steps, n);
    assert Take(states[n], steps[n]) == Some(states[n + 1]);
    assert IssuedOk(states[n], states[n].issued[i]);
  }

  /** Of the password changes that verified one hash, at most one commits. */
  lemma OneChangePerHash(states: seq<State>, steps: seq<Step>, n: nat, i: int, j: int)
    requires IsRun(states, steps) && n <= |steps| && 0 <= i < j < |states[n].log|
    requires states[n].log[i].user == states[n].log[j].user
    requires ChangesPassword(states[n].log[i], states[n].log[i].user)
    requires ChangesPassword(states[n].log[j], states[n].log[j].user)
    ensures states[n].log[i].verified != states[n].log[j].verified
  {
    RunKeeps(states, steps, n);
  }

  /**
   * Columns change only when asked: a name or a password that a step changes was asked for by the
   * request that took the step, and a changed password replaced the very hash that request verified.
   */
  lemma OnlyWhatWasAskedChanges(states: seq<State>, steps: seq<Step>, n: nat, id: int)
    requires IsRun(states, steps) && n < |steps| && id in states[n].users
    ensures id in states[n + 1].users && states[n + 1].users[id].email == states[n].users[id].email
    ensures var before, after := states[n].users[id], states[n + 1].users[id];
            after != before ==>
              steps[n].Write? && steps[n].r in states[n].requests && states[n].requests[steps[n].r].Writing? &&
              var q := states[n].requests[steps[n].r];
              q.id == id && (after.name != before.name ==> q.wish.newName == Some(after.name)) &&
              (after.hash != before.hash ==>
                 q.wish.change.Some? && Verify(after.hash, q.wish.change.value.next) && q.row.hash == before.hash) &&
              (after.version != before.version <==> q.wish.change.Some?)
  {
    RunKeeps(states, steps, n);
    assert Take(states[n], steps[n]) == Some(states[n + 1]);
    UnusedIds(states[n]);
    if steps[n].Write? { assert RequestOk(states[n], steps[n].r); }
  }

  /**
   * No update is undone: an account has the name of the latest commit that asked for another name than
   * it had read, and the password of the latest commit that asked for a new one; its version counts those.
   */
  lemma NothingIsReverted(states: seq<State>, steps: seq<Step>, n: nat, id: int)
    requires IsRun(states, steps) && n <= |steps| && id in states[n].users
    ensures LastName(states[n].log, id) == Some(states[n].users[id].name)
    ensures LastPassword(states[n].log, id) == Some(states[n].users[id].hash.password)
    ensures Changes(states[n].log, id) == states[n].users[id].version
  {
    RunKeeps(states, steps, n);
    assert UserOk(states[n], id);
  }

  /**
   * The account has the name that the latest commit asking for a name asked for, except exactly when that
   * commit asked for the name it had read while another rename was stored in between.
   */
  lemma AskedNameIsStoredUnlessOvertaken(states: seq<State>, steps: seq<Step>, n: nat, id: int)
    requires IsRun(states, steps) && n <= |steps| && id in states[n].users
    ensures var naming := LastNaming(states[n].log, id);
            naming.Some? && (naming.value.Registered? || naming.value.wish.newName.Some?) &&
            (states[n].users[id].name == NameAsked(naming.value) <==> !Overtaken(naming.value))
  {
    RunKeeps(states, steps, n);
    assert UserOk(states[n], id);
  }

  // ---------------------------------------------------------------- a name that is not stored

  lemma Extend(states: seq<State>, steps: seq<Step>, step: Step, next: State)
    returns (states': seq<State>, steps': seq<Step>)
    requires |states| == |steps| + 1 && IsRun(states, steps) && Take(states[|steps|], step) == Some(next)
    ensures |states'| == |steps'| + 1 && IsRun(states', steps') && states'[|steps'|] == next
  {
    states', steps' := states + [next], steps + [step];
  }

  const OWNER := User("o@x.io", "x", Hash("p", 1), 0)
  const RENAME := Wish(Some("y"), None)
  const KEEP_NAME := Wish(Some("x"), Some(Change("p", "q")))

  /** An account named x, signed in, with two updates that have read it. */
  function TwoUpdates(): State {
    State(map[1 := OWNER], 1, 1, map[2 := Updating(1, OWNER, RENAME), 3 := Updating(1, OWNER, KEEP_NAME)],
          [Issued(Token(1, 0), OWNER.hash, "p")], [Registered(1, "x", OWNER.hash)])
  }

  lemma TwoUpdatesBegin() returns (states: seq<State>, steps: seq<Step>)
    ensures |states| == |steps| + 1 && IsRun(states, steps) && states[|steps|] == TwoUpdates()
  {
    states, steps := [START], [];
    assert IsRun(states, steps);
    hide IsRun;
    var s1 := Take(START, Register(1, "o@x.io", "x", "p")).value;
    states, steps := Extend(states, steps, Register(1, "o@x.io", "x", "p"), s1);
    var s2 := Take(s1, Issue(1)).value;
    assert s2.issued == TwoUpdates().issued && s2.issued[0].token == Token(1, 0);
    states, steps := Extend(states, steps, Issue(1), s2);
    var s3 := Take(s2, Update(2, Token(1, 0), RENAME)).value;
    states, steps := Extend(states, steps, Update(2, Token(1, 0), RENAME), s3);
    var s4 := Take(s3, Update(3, Token(1, 0), KEEP_NAME)).value;
    states, steps := Extend(states, steps, Update(3, Token(1, 0), KEEP_NAME), s4);
    assert s4.requests == TwoUpdates().requests && s4.users == TwoUpdates().users && s4.log == TwoUpdates().log;
  }

  /** The latest commit asked for the name x, which it had read, and the account keeps the name y. */
  lemma AskedNameCanBeOvertaken() returns (states: seq<State>, steps: seq<Step>)
    ensures IsRun(states, steps) && |states| == |steps| + 1
    ensures var last := states[|steps|];
            last.log != [] && 1 in last.users && last.users[1].name == "y" &&
            var e := last.log[|last.log| - 1];
            e.Updated? && e.user == 1 && e.wish.newName == Some("x")
  {
    states, steps := TwoUpdatesBegin();
    hide IsRun;
    var s5 := Take(TwoUpdates(), Prepare(2)).value;
    states, steps := Extend(states, steps, Prepare(2), s5);
    var s6 := Take(s5, Prepare(3)).value;
    states, steps := Extend(states, steps, Prepare(3), s6);
    var s7 := Take(s6, Write(2)).value;
    states, steps := Extend(states, steps, Write(2), s7);
    var s8 := Take(s7, Write(3)).value;
    states, steps := Extend(states, steps, Write(3), s8);
  }
}
