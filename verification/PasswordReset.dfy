/** Password-reset grants and session revocation: a session carries the user's token version at issue
    and is accepted only while the stored version is still the same. */
module PasswordReset {
  import opened Prelude

  type UserId = nat
  type Password = nat

  /** Raw reset tokens; the stored hash is injective, so the raw token names the row. */
  type Token = nat

  datatype User = User(email: string, local: bool, active: bool, password: Password, tokenVersion: nat)

  datatype Grant = Grant(user: UserId, expires: int, usedAt: Option<int>)

  datatype Db = Db(users: map<UserId, User>, grants: map<Token, Grant>)

  /** The verified claims of a session token. */
  datatype Session = Session(user: UserId, version: nat)

  predicate Live(g: Grant, now: int) {
    g.usedAt.None? && now < g.expires
  }

  /** `_resolve_local_jwt`, up to the choice of project. */
  predicate Accepts(db: Db, s: Session) {
    s.user in db.users && db.users[s.user].active && s.version == db.users[s.user].tokenVersion
  }

  /** The new password and the version bump that strands every earlier session. */
  function Rekeyed(u: User, password: Password): User {
    u.(password := password, tokenVersion := u.tokenVersion + 1)
  }

  /** The consumed grant and every other outstanding grant of its user, all stamped. */
  function Burnt(grants: map<Token, Grant>, user: UserId, token: Token, now: int): map<Token, Grant> {
    map t | t in grants ::
      if t == token || (grants[t].user == user && grants[t].usedAt.None?) then grants[t].(usedAt := Some(now)) else grants[t]
  }

  /** `create_reset`, with the random token and the expiry it mints. */
  function Create(db: Db, owner: Option<UserId>, token: Token, expires: int): Db {
    if owner.None? then db else db.(grants := db.grants[token := Grant(owner.value, expires, None)])
  }

  /** `consume_reset`. */
  function Consume(db: Db, token: Token, password: Password, now: int): (Db, Option<UserId>) {
    if token !in db.grants || !Live(db.grants[token], now) || db.grants[token].user !in db.users then (db, None)
    else
      var user := db.grants[token].user;
      (Db(db.users[user := Rekeyed(db.users[user], password)], Burnt(db.grants, user, token, now)), Some(user))
  }

  /** A grant that is known, unused and unexpired, of a user that is still there. */
  predicate Redeemable(db: Db, token: Token, now: int) {
    && token in db.grants && db.grants[token].usedAt == None && now < db.grants[token].expires
    && db.grants[token].user in db.users
  }

  // ---------------------------------------------------------------- the tables, updated in place

  class Accounts {
    var users: map<UserId, User>
    var grants: map<Token, Grant>

    function View(): Db
      reads this
    {
      Db(users, grants)
    }

    /** The local account under a normalised email, if any. */
    method FindLocal(email: string) returns (owner: Option<UserId>)
      ensures owner.Some? ==> owner.value in users && users[owner.value].email == email && users[owner.value].local
      ensures owner.None? ==> forall u :: u in users ==> !(users[u].email == email && users[u].local)
    {
      var rest := users.Keys;
      while rest != {}
        invariant rest <= users.Keys
        invariant forall u :: u in users && u !in rest ==> !(users[u].email == email && users[u].local)
        decreases rest
      {
        var u :| u in rest;
        if users[u].email == email && users[u].local {
          return Some(u);
        }
        rest := rest - {u};
      }
      return None;
    }

    method CreateReset(email: string, token: Token, now: int, ttl: nat) returns (owner: Option<UserId>)
      modifies this`grants
      ensures View() == Create(old(View()), owner, token, now + ttl)
      ensures forall t :: Find(grants, t) ==
                if t == token && owner.Some? then Some(Grant(owner.value, now + ttl, None)) else Find(old(grants), t)
      ensures owner.Some? ==> email != "" && owner.value in users && users[owner.value].email == email && users[owner.value].local
      ensures owner.None? ==> email == "" || forall u :: u in users ==> !(users[u].email == email && users[u].local)
    {
      if email == "" {
        return None;
      }
      owner := FindLocal(email);
      if owner.Some? {
        grants := grants[token := Grant(owner.value, now + ttl, None)];
      }
    }

    method ConsumeReset(token: Token, password: Password, now: int) returns (user: Option<UserId>)
      modifies this
      ensures (View(), user) == Consume(old(View()), token, password, now)
      ensures user.Some? <==> Redeemable(old(View()), token, now)
    {
      if token !in grants || grants[token].usedAt.Some? {
        return None;
      }
      if grants[token].expires <= now {
        return None;
      }
      var u := grants[token].user;
      if u !in users {
        return None;
      }
      users := users[u := users[u].(password := password)];
      users := users[u := users[u].(tokenVersion := users[u].tokenVersion + 1)];
      grants := grants[token := grants[token].(usedAt := Some(now))];
      grants := map t | t in grants ::
        if grants[t].user == u && t != token && grants[t].usedAt.None? then grants[t].(usedAt := Some(now)) else grants[t];
      assert users == old(users)[u := Rekeyed(old(users)[u], password)];
      assert grants == Burnt(old(grants), u, token, now);
      return Some(u);
    }
  }

  // ---------------------------------------------------------------- runs

  /** Everything that happens to accounts in local mode. `ChangePassword` is the signed-in variant of a
      reset; `Issue` is any sign-in. */
  datatype Op =
    | Issue(user: UserId)
    | CreateReset(owner: Option<UserId>, token: Token, expires: int)
    | ConsumeReset(token: Token, password: Password, now: int)
    | ChangePassword(user: UserId, current: Password, password: Password)

  /** `sessions` is the history of every session ever issued. */
  datatype Sys = Sys(db: Db, sessions: set<Session>)

  function Next(s: Sys, op: Op): Sys {
    match op
    case Issue(u) =>
      if u in s.db.users then s.(sessions := s.sessions + {Session(u, s.db.users[u].tokenVersion)}) else s
    case CreateReset(owner, token, expires) =>
      // a freshly drawn token names no existing grant
      if token in s.db.grants then s else s.(db := Create(s.db, owner, token, expires))
    case ConsumeReset(token, password, now) => s.(db := Consume(s.db, token, password, now).0)
    case ChangePassword(u, current, password) =>
      if u in s.db.users && s.db.users[u].password == current
      then s.(db := s.db.(users := s.db.users[u := Rekeyed(s.db.users[u], password)]))
      else s
  }

  function Run(s: Sys, ops: seq<Op>): Sys {
    if ops == [] then s else Next(Run(s, ops[..|ops| - 1]), ops[|ops| - 1])
  }

  /** Whether a step resets or changes the password of `u`. */
  predicate Rekeys(s: Sys, op: Op, u: UserId) {
    || (op.ConsumeReset? && Consume(s.db, op.token, op.password, op.now).1 == Some(u))
    || (op.ChangePassword? && op.user == u && u in s.db.users && s.db.users[u].password == op.current)
  }

  /** How many steps of the run do. */
  function RekeyCount(s: Sys, ops: seq<Op>, u: UserId): nat {
    if ops == [] then 0
    else
      var n := |ops| - 1;
      RekeyCount(s, ops[..n], u) + if Rekeys(Run(s, ops[..n]), ops[n], u) then 1 else 0
  }

  /** The version of a user counts exactly the resets and password changes, and nothing else about the
      account's standing changes. */
  lemma {:induction false} VersionCountsRekeys(s: Sys, ops: seq<Op>, u: UserId)
    requires u in s.db.users
    ensures u in Run(s, ops).db.users
    ensures Run(s, ops).db.users[u].tokenVersion == s.db.users[u].tokenVersion + RekeyCount(s, ops, u)
    ensures Run(s, ops).db.users[u].active == s.db.users[u].active
    decreases |ops|
  {
    if ops != [] { VersionCountsRekeys(s, ops[..|ops| - 1], u); }
  }

  /** A session issued now is accepted at a later moment exactly when its user is active and has neither
      reset nor changed the password in between. */
  lemma AcceptedUntilRekeyed(s: Sys, ops: seq<Op>, u: UserId)
    requires u in s.db.users
    ensures var session := Session(u, s.db.users[u].tokenVersion);
            Accepts(Run(s, ops).db, session) <==> s.db.users[u].active && RekeyCount(s, ops, u) == 0
  {
    VersionCountsRekeys(s, ops, u);
  }

  /** No session carries a version its user has not reached. */
  ghost predicate Issued(s: Sys) {
    forall x <- s.sessions :: x.user in s.db.users && x.version <= s.db.users[x.user].tokenVersion
  }

  lemma {:induction false} RunKeepsIssued(s: Sys, ops: seq<Op>)
    requires Issued(s)
    ensures Issued(Run(s, ops)) && s.sessions <= Run(s, ops).sessions
    decreases |ops|
  {
    if ops != [] { RunKeepsIssued(s, ops[..|ops| - 1]); }
  }

  /** Revocation: every session of a user issued before a successful reset, or password change, of that
      user is refused for ever after, whatever happens later. */
  lemma RevokedForEver(s: Sys, before: seq<Op>, op: Op, after: seq<Op>, session: Session)
    requires Issued(s) && session in Run(s, before).sessions
    requires Rekeys(Run(s, before), op, session.user)
    ensures !Accepts(Run(Next(Run(s, before), op), after).db, session)
  {
    RunKeepsIssued(s, before);
    var mid := Next(Run(s, before), op);
    VersionCountsRekeys(mid, after, session.user);
  }

  // ---------------------------------------------------------------- grants

  /** A reset works exactly for a known, unused and unexpired grant of a user that still exists, and otherwise
      changes nothing. Right after it its user has the new password and no outstanding grant left, and nobody
      else's grants or account are touched. */
  lemma ResetBurnsAll(db: Db, token: Token, password: Password, now: int)
    ensures var (db', user) := Consume(db, token, password, now);
            if user.None? then
              db' == db && !Redeemable(db, token, now)
            else
              && Redeemable(db, token, now) && user == Some(db.grants[token].user)
              && user.value in db'.users
              && db'.users[user.value] ==
                   db.users[user.value].(password := password, tokenVersion := 1 + db.users[user.value].tokenVersion)
              && (forall t :: t in db'.grants ==>
                    db'.grants[t] == db.grants[t] || (db.grants[t].usedAt.None? && db'.grants[t] == db.grants[t].(usedAt := Some(now))))
              && db'.grants.Keys == db.grants.Keys && db'.users.Keys == db.users.Keys
              && (forall t :: t in db'.grants && db'.grants[t].user == user.value ==> db'.grants[t].usedAt.Some?)
              && (forall t :: t in db'.grants && db.grants[t].user != user.value ==> db'.grants[t] == db.grants[t])
              && (forall u :: u in db'.users && u != user.value ==> db'.users[u] == db.users[u])
  {
  }

  /** A grant made for a local account redeems once, and exactly until it expires; a session issued to an active user
      is accepted there and then. */
  lemma ResetRoundTrip(s: Sys, u: UserId, token: Token, expires: int, password: Password, now: int)
    requires u in s.db.users && token !in s.db.grants
    ensures var made := Next(s, CreateReset(Some(u), token, expires));
            var used := Next(made, ConsumeReset(token, password, now));
            && (Rekeys(made, ConsumeReset(token, password, now), u) <==> now < expires)
            && used.db.users[u].password == (if now < expires then password else s.db.users[u].password)
            && (now < expires ==> Uses(s, [CreateReset(Some(u), token, expires), ConsumeReset(token, password, now)], token) == 1)
    ensures var issued := Next(s, Issue(u));
            s.db.users[u].active ==> exists x <- issued.sessions :: x.user == u && Accepts(issued.db, x)
  {
    var create, consume := CreateReset(Some(u), token, expires), ConsumeReset(token, password, now);
    assert [create, consume][..1] == [create] && [create][..0] == [];
    assert Run(s, [create]) == Next(s, create);
    assert Uses(s, [create], token) == 0;
    assert Session(u, s.db.users[u].tokenVersion) in Next(s, Issue(u)).sessions;
  }

  /** How often the run consumes a token successfully. */
  function Uses(s: Sys, ops: seq<Op>, token: Token): nat {
    if ops == [] then 0
    else
      var n := |ops| - 1; var op := ops[n];
      Uses(s, ops[..n], token) +
      if op.ConsumeReset? && op.token == token && Consume(Run(s, ops[..n]).db, token, op.password, op.now).1.Some? then 1 else 0
  }

  lemma {:induction false} SpentStaysSpent(s: Sys, ops: seq<Op>, token: Token)
    ensures token in s.db.grants ==> token in Run(s, ops).db.grants && Run(s, ops).db.grants[token].user == s.db.grants[token].user
    ensures Uses(s, ops, token) > 0 ==> token in Run(s, ops).db.grants && Run(s, ops).db.grants[token].usedAt.Some?
    ensures token in s.db.grants && s.db.grants[token].usedAt.Some? ==> Run(s, ops).db.grants[token].usedAt.Some?
    decreases |ops|
  {
    if ops != [] { SpentStaysSpent(s, ops[..|ops| - 1], token); }
  }

  /** Each grant is consumed at most once in any run, and never once another reset of the same user has
      burnt it. */
  lemma {:induction false} SingleUse(s: Sys, ops: seq<Op>, token: Token)
    ensures Uses(s, ops, token) <= 1
    ensures token in s.db.grants && s.db.grants[token].usedAt.Some? ==> Uses(s, ops, token) == 0
    decreases |ops|
  {
    if ops != [] {
      SingleUse(s, ops[..|ops| - 1], token);
      SpentStaysSpent(s, ops[..|ops| - 1], token);
    }
  }
}
