/** One invitation, any number of concurrent `accept_invitation` transactions, and meanwhile an admin revoking
    it, the invited person registering or changing their password, members and workspaces going, and the
    organization being deleted. The conditional UPDATE is what makes it single-use. */
module InviteRace {
  import opened Prelude

  type UserId = nat
  type Password = nat

  /** `Deleted` is a row that went with its organization. */
  datatype Status = Pending | Accepted | Revoked | Deleted

  /** The immutable part of the row; `org` is absent on invites older than the organization tier. */
  datatype Invite = Invite(org: Option<nat>, role: string, expires: int)

  datatype Account = Account(id: UserId, password: Password)

  /** Committed tables: the local account under the invited email, the org's members, and whether the org has
      a workspace. */
  datatype Tables = Tables(account: Option<Account>, members: map<UserId, string>, workspace: bool)

  /** One attempt: `Checked` has passed every check of the read phase at time `at`, having seen this account;
      `Updated` has won the conditional UPDATE and holds its row lock; `Committed` and `Rejected` are final. */
  datatype Pc =
    | Start
    | Checked(at: int, account: Option<Account>)
    | Updated(at: int, account: Option<Account>)
    | Committed(at: int, user: UserId, seen: Option<Account>)
    | Rejected

  /** `status` is the row as its lock holder sees it; `undo` is what a rollback puts back. */
  datatype State = State(
    invite: Invite,
    status: Status,
    undo: Option<Status>,
    holder: nat,
    tables: Tables,
    nextUser: UserId,
    passwords: seq<Password>,
    pcs: seq<Pc>)

  datatype Action =
    | Read(a: nat, now: int)
    | Update(a: nat)
    | Finish(a: nat)
    | Crash(a: nat)
    | Revoke
    | Register(password: Password)
    | ChangePassword(password: Password)
    | RemoveMember(user: UserId)
    | SetWorkspace(present: bool)
    | DeleteOrg

  function CommittedStatus(st: State): Status {
    if st.undo.Some? then st.undo.value else st.status
  }

  predicate Enabled(st: State, x: Action) {
    match x
    case Read(a, _) => a < |st.pcs| && st.pcs[a] == Start
    case Update(a) => a < |st.pcs| && st.pcs[a].Checked? && st.undo.None?
    case Finish(a) => a < |st.pcs| && st.pcs[a].Updated?
    case Crash(a) => a < |st.pcs| && !st.pcs[a].Committed? && !st.pcs[a].Rejected?
    case Revoke => st.undo.None?
    case Register(_) => st.tables.account.None?
    case ChangePassword(_) => st.tables.account.Some?
    case RemoveMember(_) => true
    case SetWorkspace(_) => true
    case DeleteOrg => st.undo.None?
  }

  function At(st: State, a: nat, pc: Pc): State
    requires a < |st.pcs|
  {
    st.(pcs := st.pcs[a := pc])
  }

  /** The session is rolled back: the row gets its old status back if this attempt had changed it. */
  function Rollback(st: State, a: nat): State
    requires a < |st.pcs|
  {
    var st' := At(st, a, Rejected);
    if st.undo.Some? && st.holder == a then st'.(status := st.undo.value, undo := None) else st'
  }

  function Next(st: State, x: Action): (r: State)
    requires |st.passwords| == |st.pcs|
    ensures |r.pcs| == |st.pcs| && r.passwords == st.passwords && r.invite == st.invite
  {
    if !Enabled(st, x) then st
    else
      match x
      case Read(a, now) =>
        var account := st.tables.account;
        if CommittedStatus(st) != Pending then Rollback(st, a)
        else if st.invite.expires <= now then Rollback(st, a)
        else if account.Some? && account.value.password != st.passwords[a] then Rollback(st, a)
        else At(st, a, Checked(now, account))
      case Update(a) =>
        if st.status != Pending then Rollback(st, a)
        else At(st.(undo := Some(Pending), status := Accepted, holder := a), a, Updated(st.pcs[a].at, st.pcs[a].account))
      case Finish(a) => FinishAccept(st, a)
      case Crash(a) => Rollback(st, a)
      case Revoke => if st.status == Pending then st.(status := Revoked) else st
      case Register(password) =>
        st.(tables := st.tables.(account := Some(Account(st.nextUser, password))), nextUser := st.nextUser + 1)
      case ChangePassword(password) => st.(tables := st.tables.(account := Some(st.tables.account.value.(password := password))))
      case RemoveMember(user) => st.(tables := st.tables.(members := st.tables.members - {user}))
      case SetWorkspace(present) => st.(tables := st.tables.(workspace := present))
      case DeleteOrg => st.(status := Deleted, tables := Tables(st.tables.account, map[], false))
  }

  /** Everything after the conditional UPDATE. */
  function FinishAccept(st: State, a: nat): State
    requires a < |st.pcs| && st.pcs[a].Updated? && |st.passwords| == |st.pcs|
  {
    var mine := st.pcs[a].account;
    if st.invite.org.None? then Rollback(st, a)
    else if mine.None? && st.tables.account.Some? then Rollback(st, a)  // the email is unique
    else if !st.tables.workspace then Rollback(st, a)
    else
      var user := if mine.Some? then mine.value.id else st.nextUser;
      var account := if mine.Some? then st.tables.account else Some(Account(user, st.passwords[a]));
      var members := if user in st.tables.members then st.tables.members else st.tables.members[user := st.invite.role];
      var st' := At(st, a, Committed(st.pcs[a].at, user, mine));
      st'.(undo := None, tables := Tables(account, members, true), nextUser := if mine.Some? then st.nextUser else st.nextUser + 1)
  }

  function Run(st: State, xs: seq<Action>): (r: State)
    requires |st.passwords| == |st.pcs|
    ensures |r.pcs| == |st.pcs| && r.passwords == st.passwords && r.invite == st.invite
  {
    if xs == [] then st else Next(Run(st, xs[..|xs| - 1]), xs[|xs| - 1])
  }

  predicate Initial(st: State) {
    && |st.passwords| == |st.pcs| && st.undo.None?
    && (st.tables.account.Some? ==> st.tables.account.value.id < st.nextUser)
    && (forall a :: 0 <= a < |st.pcs| ==> st.pcs[a] == Start)
  }

  /** The account seen in the read phase is the one there now, but for its password, and then it had the
      password given. */
  ghost predicate Saw(st: State, account: Option<Account>, a: nat)
    requires a < |st.passwords|
  {
    account.Some? ==>
      st.tables.account.Some? && st.tables.account.value.id == account.value.id && account.value.password == st.passwords[a]
  }

  ghost predicate Agrees(st: State, a: nat)
    requires a < |st.pcs| && |st.passwords| == |st.pcs|
  {
    match st.pcs[a]
    case Start => true
    case Checked(at, account) => at < st.invite.expires && Saw(st, account, a)
    case Updated(at, account) => at < st.invite.expires && Saw(st, account, a) && st.undo == Some(Pending) && st.holder == a
    case Committed(at, user, seen) =>
      && at < st.invite.expires && CommittedStatus(st) != Pending && st.undo.None?
      && st.invite.org.Some? && Saw(st, seen, a)
      && st.tables.account.Some? && st.tables.account.value.id == user
    case Rejected => true
  }

  ghost predicate Inv(st: State) {
    && |st.passwords| == |st.pcs|
    && (forall a :: 0 <= a < |st.pcs| ==> Agrees(st, a))
    && (forall a, b :: 0 <= a < |st.pcs| && 0 <= b < |st.pcs| && st.pcs[a].Committed? && st.pcs[b].Committed? ==> a == b)
    && (st.undo.Some? ==> st.undo == Some(Pending) && st.status == Accepted && st.holder < |st.pcs| && st.pcs[st.holder].Updated?)
  }

  lemma AgreesKept(st: State, x: Action, a: nat)
    requires Inv(st) && a < |st.pcs|
    ensures Agrees(Next(st, x), a)
  {
    if Enabled(st, x) {
      assert Agrees(st, a);
      if x.Read? || x.Update? || x.Finish? || x.Crash? { assert Agrees(st, x.a); }
    }
  }

  lemma OneCommitKept(st: State, x: Action, a: nat, b: nat)
    requires Inv(st) && a < |st.pcs| && b < |st.pcs|
    requires Next(st, x).pcs[a].Committed? && Next(st, x).pcs[b].Committed?
    ensures a == b
  {
    if Enabled(st, x) { assert Agrees(st, a) && Agrees(st, b); }
  }

  lemma HolderKept(st: State, x: Action)
    requires Inv(st)
    ensures var st' := Next(st, x);
            st'.undo.Some? ==>
              st'.undo == Some(Pending) && st'.status == Accepted && st'.holder < |st'.pcs| && st'.pcs[st'.holder].Updated?
  {
    if Enabled(st, x) && x.Finish? { assert Agrees(st, x.a); }
  }

  lemma NextKeepsInv(st: State, x: Action)
    requires Inv(st)
    ensures Inv(Next(st, x))
  {
    var st' := Next(st, x);
    assert |st'.pcs| == |st.pcs| && |st'.passwords| == |st'.pcs|;
    forall a | 0 <= a < |st.pcs| ensures Agrees(st', a) {
      AgreesKept(st, x, a);
    }
    forall a, b | 0 <= a < |st.pcs| && 0 <= b < |st.pcs| && st'.pcs[a].Committed? && st'.pcs[b].Committed? ensures a == b {
      OneCommitKept(st, x, a, b);
    }
    HolderKept(st, x);
  }

  lemma {:induction false} RunKeepsInv(st: State, xs: seq<Action>)
    requires Initial(st)
    ensures Inv(Run(st, xs))
    decreases |xs|
  {
    if xs != [] {
      RunKeepsInv(st, xs[..|xs| - 1]);
      NextKeepsInv(Run(st, xs[..|xs| - 1]), xs[|xs| - 1]);
    }
  }

  /** Single use: in every interleaving at most one attempt commits. */
  lemma AtMostOneCommits(st: State, xs: seq<Action>, a: nat, b: nat)
    requires Initial(st) && a < |st.pcs| && b < |st.pcs|
    requires Run(st, xs).pcs[a].Committed? && Run(st, xs).pcs[b].Committed?
    ensures a == b
  {
    RunKeepsInv(st, xs);
  }

  /** What a commit means, for ever after: the token was read before it expired, the invitation is spent, and
      the account it admitted is the one under the invited email, which either had the password given when the
      attempt read it, or was made by the attempt. */
  lemma CommitMeansEntitled(st: State, xs: seq<Action>, a: nat)
    requires Initial(st) && a < |st.pcs| && Run(st, xs).pcs[a].Committed?
    ensures var end := Run(st, xs);
            var pc := end.pcs[a];
            && pc.at < st.invite.expires && CommittedStatus(end) != Pending && st.invite.org.Some?
            && end.tables.account.Some? && end.tables.account.value.id == pc.user
            && (pc.seen.Some? ==> pc.seen.value == Account(pc.user, st.passwords[a]))
  {
    RunKeepsInv(st, xs);
    assert Agrees(Run(st, xs), a);
  }

  /** The very step that commits: the invitation was pending, the organization had a workspace, and afterwards
      the account is a member; if there was none before, it has the password given. */
  lemma CommitsOnlyEntitled(st: State, x: Action, a: nat)
    requires Inv(st) && a < |st.pcs| && !st.pcs[a].Committed? && Next(st, x).pcs[a].Committed?
    ensures CommittedStatus(st) == Pending && CommittedStatus(Next(st, x)) == Accepted && st.tables.workspace
    ensures Next(st, x).pcs[a].user in Next(st, x).tables.members
    ensures Next(st, x).tables.account ==
              if st.tables.account.Some? then st.tables.account else Some(Account(Next(st, x).pcs[a].user, st.passwords[a]))
    ensures st.tables.account.None? ==> Next(st, x).pcs[a].user == st.nextUser && Next(st, x).nextUser > st.nextUser
    ensures Next(st, x).tables.workspace
  {
    assert Agrees(st, a);
  }

  /** What other transactions can see. */
  function Visible(st: State): (Status, Tables) {
    (CommittedStatus(st), st.tables)
  }

  /** No step of an attempt but its commit changes what others see: an expired or mismatched
      read, a lost UPDATE, a raise after the UPDATE and a crash all leave it exactly as it was. */
  lemma OnlyCommitsShow(st: State, x: Action)
    requires Inv(st)
    requires x.Read? || x.Update? || x.Crash? || (x.Finish? && x.a < |st.pcs| && !Next(st, x).pcs[x.a].Committed?)
    ensures Visible(Next(st, x)) == Visible(st)
  {
    if Enabled(st, x) { assert Agrees(st, x.a); }
  }

  /** An attempt that gives a password the existing account never has never gets past the read phase, so it
      cannot consume the invitation, whatever else is going on. */
  lemma {:induction false} WrongPasswordNeverConsumes(st: State, xs: seq<Action>, a: nat)
    requires Initial(st) && a < |st.pcs|
    requires st.tables.account.Some? && st.tables.account.value.password != st.passwords[a]
    requires forall x <- xs :: x.ChangePassword? ==> x.password != st.passwords[a]
    ensures Run(st, xs).pcs[a] == Start || Run(st, xs).pcs[a] == Rejected
    ensures Run(st, xs).tables.account.Some? && Run(st, xs).tables.account.value.password != st.passwords[a]
    decreases |xs|
  {
    if xs != [] {
      var before := Run(st, xs[..|xs| - 1]);
      assert xs == xs[..|xs| - 1] + [xs[|xs| - 1]];
      WrongPasswordNeverConsumes(st, xs[..|xs| - 1], a);
      RunKeepsInv(st, xs[..|xs| - 1]);
      var x := xs[|xs| - 1];
      if x.Finish? && x.a < |st.pcs| { assert Agrees(before, x.a); }
    }
  }

  /** Nor does an attempt that only ever reads the invitation at or after its expiry. */
  lemma {:induction false} ExpiredNeverConsumes(st: State, xs: seq<Action>, a: nat)
    requires Initial(st) && a < |st.pcs|
    requires forall x <- xs :: x.Read? && x.a == a ==> st.invite.expires <= x.now
    ensures Run(st, xs).pcs[a] == Start || Run(st, xs).pcs[a] == Rejected
    decreases |xs|
  {
    if xs != [] {
      ExpiredNeverConsumes(st, xs[..|xs| - 1], a);
      assert xs == xs[..|xs| - 1] + [xs[|xs| - 1]];
    }
  }

  /** Spent is spent: once the invitation is not pending, no continuation makes it pending again and no
      further attempt commits. */
  lemma {:induction false} SpentForEver(st: State, xs: seq<Action>, a: nat)
    requires Inv(st) && CommittedStatus(st) != Pending && st.undo.None?
    requires a < |st.pcs| && !st.pcs[a].Committed?
    ensures CommittedStatus(Run(st, xs)) != Pending && Run(st, xs).undo.None? && Inv(Run(st, xs))
    ensures !Run(st, xs).pcs[a].Committed?
    decreases |xs|
  {
    if xs != [] {
      var before := Run(st, xs[..|xs| - 1]);
      SpentForEver(st, xs[..|xs| - 1], a);
      NextKeepsInv(before, xs[|xs| - 1]);
      assert Agrees(before, a);
    }
  }

  /** An attempt that commits adds exactly one membership, with the invited role, unless the person was
      a member already; then members and roles stay as they were. */
  lemma CommitAddsOneMember(st: State, a: nat)
    requires Inv(st) && a < |st.pcs| && st.pcs[a].Updated? && Next(st, Finish(a)).pcs[a].Committed?
    ensures var user := Next(st, Finish(a)).pcs[a].user;
            Next(st, Finish(a)).tables.members ==
              if user in st.tables.members then st.tables.members else st.tables.members[user := st.invite.role]
    ensures st.tables.account.Some? ==> Next(st, Finish(a)).tables.account == st.tables.account
  {
    assert Agrees(st, a);
  }

  lemma RunOfThree(st: State, x: Action, y: Action, z: Action)
    requires |st.passwords| == |st.pcs|
    ensures Run(st, [x, y, z]) == Next(Next(Next(st, x), y), z)
  {
    assert [x, y, z][..2] == [x, y] && [x, y][..1] == [x] && [x][..0] == [];
    assert Run(st, [x]) == Next(st, x);
    assert Run(st, [x, y]) == Next(Next(st, x), y);
  }

  lemma LoneReadUpdate(st: State, a: nat, now: int)
    requires Initial(st) && a < |st.pcs|
    ensures var two := Next(Next(st, Read(a, now)), Update(a));
            && |two.pcs| == |st.pcs|
            && two.invite == st.invite && two.tables == st.tables && two.passwords == st.passwords
            && two.pcs[a] ==
                 if && st.status == Pending && now < st.invite.expires
                    && (st.tables.account.Some? ==> st.tables.account.value.password == st.passwords[a])
                 then Updated(now, st.tables.account)
                 else Rejected
  {
    var one := Next(st, Read(a, now));
    assert one.pcs[a] == Rejected || one == At(st, a, Checked(now, st.tables.account));
  }

  lemma LoneFinish(st: State, a: nat, now: int)
    requires a < |st.pcs| && |st.passwords| == |st.pcs|
    requires st.pcs[a] == Rejected || st.pcs[a] == Updated(now, st.tables.account)
    ensures Next(st, Finish(a)).pcs[a].Committed? <==> st.pcs[a].Updated? && st.invite.org.Some? && st.tables.workspace
  {
  }

  /** Undisturbed, an attempt succeeds exactly when the invitation is pending and unexpired, the
      password fits any existing account, and the invited org exists and has a workspace. */
  lemma LoneAttempt(st: State, a: nat, now: int)
    requires Initial(st) && a < |st.pcs|
    ensures Run(st, [Read(a, now), Update(a), Finish(a)]).pcs[a].Committed? <==>
              && st.status == Pending && now < st.invite.expires
              && (st.tables.account.Some? ==> st.tables.account.value.password == st.passwords[a])
              && st.invite.org.Some? && st.tables.workspace
  {
    RunOfThree(st, Read(a, now), Update(a), Finish(a));
    LoneReadUpdate(st, a, now);
    hide Run, Next, Initial;
    LoneFinish(Next(Next(st, Read(a, now)), Update(a)), a, now);
  }

  // ---------------------------------------------------------------- single steps

  /** While an attempt has the row locked, nobody else's write to it goes through; they wait. */
  lemma RowLockHeld(st: State, x: Action)
    requires |st.passwords| == |st.pcs| && st.undo.Some? && (x.Update? || x.Revoke? || x.DeleteOrg?)
    ensures Next(st, x) == st
  {
  }

  /** An attempt that committed or was rejected has ended, and no attempt ever moves another. */
  lemma EndedStays(st: State, x: Action, a: nat)
    requires |st.passwords| == |st.pcs| && a < |st.pcs|
    requires st.pcs[a].Committed? || st.pcs[a].Rejected? || !(x.Read? || x.Update? || x.Finish? || x.Crash?) || x.a != a
    ensures Next(st, x).pcs[a] == st.pcs[a]
  {
  }

  /** The read phase lets an attempt pass exactly on a pending, unexpired invitation and the right password for any
      account there is; it writes nothing. */
  lemma ReadExactly(st: State, a: nat, now: int)
    requires Inv(st) && a < |st.pcs| && st.pcs[a] == Start
    ensures Next(st, Read(a, now)).pcs[a] ==
              if && CommittedStatus(st) == Pending && now < st.invite.expires
                 && (st.tables.account.Some? ==> st.tables.account.value.password == st.passwords[a])
              then Checked(now, st.tables.account) else Rejected
    ensures Next(st, Read(a, now)).(pcs := st.pcs) == st
  {
    assert st.undo.Some? ==> st.holder != a;
  }

  /** What everybody else does meanwhile: each changes its own row and nothing more. */
  lemma WorldSteps(st: State, password: Password, user: UserId, present: bool)
    requires |st.passwords| == |st.pcs|
    ensures st.undo.None? ==> Next(st, Revoke) == st.(status := if st.status == Pending then Revoked else st.status)
    ensures var st' := Next(st, Register(password));
            if st.tables.account.Some? then st' == st
            else && st'.tables == Tables(Some(Account(st.nextUser, password)), st.tables.members, st.tables.workspace)
                 && st'.nextUser > st.nextUser && st'.(tables := st.tables, nextUser := st.nextUser) == st
    ensures var st' := Next(st, ChangePassword(password));
            && st'.(tables := st.tables) == st && st'.tables.members == st.tables.members && st'.tables.workspace == st.tables.workspace
            && st'.tables.account == match st.tables.account case None => None case Some(u) => Some(Account(u.id, password))
    ensures var st' := Next(st, RemoveMember(user));
            && st'.(tables := st.tables) == st && st'.tables == st.tables.(members := st'.tables.members)
            && forall u :: Find(st'.tables.members, u) == if u == user then None else Find(st.tables.members, u)
    ensures Next(st, SetWorkspace(present)) == st.(tables := Tables(st.tables.account, st.tables.members, present))
    ensures st.undo.None? ==>
              var st' := Next(st, DeleteOrg);
              && st'.status !in {Pending, Accepted, Revoked} && st'.tables.members == map[] && !st'.tables.workspace
              && st'.tables.account == st.tables.account && st'.pcs == st.pcs && st'.nextUser == st.nextUser
  {
  }
}
