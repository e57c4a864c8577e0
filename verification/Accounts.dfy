/** The account operations as the service performs them: row by row on the tables, with a rollback when a
    request is refused half-way. Each keeps the tables sound, leaves every other organization alone, and
    says what its caller may rely on. */
module Accounts {
  import opened Prelude
  import opened AccountsSpec
  import opened AccountsAccess
  import opened AccountsInvariants
  import opened AccountsCaps
  import opened AccountsTenancy
  import opened AccountsGrants

  /** The request went through and left the outcome's tables, or was refused and left everything alone. */
  ghost predicate Settled(before: World, after: World, outcome: Outcome, refused: Option<Refusal>) {
    match outcome
    case Ok(w) => refused.None? && after == w
    case Err(e) => refused == Some(e) && after == before
  }

  /** What every request, granted or refused, leaves behind. */
  ghost predicate Lasting(w: World, op: Op, w': World) {
    Sound(w') && forall o: OrgId :: Target(w, op) != Some(o) ==> Untouched(w, w', o)
  }

  lemma SameUntouched(w: World, o: OrgId)
    ensures Untouched(w, w, o)
  {
  }

  lemma Honoured(cfg: Config, w: World, op: Op)
    requires Sound(w)
    ensures Lasting(w, op, w)
    ensures Apply(cfg, w, op).Ok? ==> Lasting(w, op, Apply(cfg, w, op).value)
  {
    hide Sound, Untouched, Apply, Target;
    NextSound(cfg, w, op);
    forall o: OrgId | Target(w, op) != Some(o) ensures Untouched(w, Next(cfg, w, op), o) {
      Confined(cfg, w, op, o);
    }
    forall o: OrgId ensures Untouched(w, w, o) { SameUntouched(w, o); }
  }

  // ---------------------------------------------------------------- what a granted request means

  /** Room below the limit, if there is one and billing is on. */
  predicate Fits(cfg: Config, count: nat, limit: Option<int>) {
    cfg.billing && limit.Some? ==> count <= limit.value
  }

  /** The caller runs this organization. */
  predicate Runs(w: World, u: User, o: OrgId) {
    o in w.orgs && (o, u) in w.members && w.members[(o, u)] in {"OWNER", "ADMIN"}
  }

  /** Somebody who may invite put one more seat, within the limit, into a company. */
  ghost predicate SeatTaken(cfg: Config, w: World, me: User, w': World) {
    exists o :: && Runs(w, me, o) && w.orgs[o].kind == Company && SeatCount(w', o) == SeatCount(w, o) + 1
                && Fits(cfg, SeatCount(w', o), SeatLimit(cfg, w.orgs[o]))
  }

  /** Somebody who may put one more workspace, within the limit, into an organization. */
  ghost predicate WorkspaceAdded(cfg: Config, w: World, me: User, w': World) {
    exists o :: && Runs(w, me, o) && WorkspaceCount(w'.projects, o) == WorkspaceCount(w.projects, o) + 1
                && Fits(cfg, WorkspaceCount(w'.projects, o), WorkspaceLimit(cfg, w.orgs[o]))
  }

  predicate CanSignIn(w: World, u: User) { SelectMembership(w, u, None).Ok? }

  /** A member of an organization the caller belongs to is one no more, which frees exactly one seat; leaving
      oneself never costs the ability to sign in. */
  ghost predicate SeatFreed(w: World, me: User, target: User, w': World) {
    && (exists o :: && (o, me) in w.members && (o, target) in w.members && (o, target) !in w'.members
                    && SeatCount(w', o) == SeatCount(w, o) - 1 && (target != me ==> Runs(w, me, o)))
    && (target == me ==> CanSignIn(w', me))
  }

  /** Nothing refers to the organization any more, and its owner can still sign in. */
  ghost predicate Dissolves(w: World, me: User, w': World) {
    && (exists o :: (o, me) in w.members && w.members[(o, me)] == "OWNER" && NoTrace(w', o))
    && CanSignIn(w', me)
  }

  ghost predicate NoTrace(w: World, o: OrgId) {
    && o !in w.orgs && (forall u :: (o, u) !in w.members) && !HasOrg(w.projects, o)
    && forall t :: t in w.invites ==> w.invites[t].org != o
  }

  lemma NoTraceLeft(w: World, w': World, me: User, x: Option<ProjectId>)
    requires DeleteOrg(w, me, x) == Ok(w')
    ensures NoTrace(w', SelectMembership(w, me, x).value.org)
  {
    OutsideHolds(w.projects, SelectMembership(w, me, x).value.org);
    hide SelectMembership, Survivor, Outside;
  }

  /** One workspace is gone, and its organization has others to sign in to. */
  ghost predicate WorkspaceGone(w: World, me: User, w': World) {
    && (exists p :: && Reachable(w, me, p) && Runs(w, me, p.org.value) && !HasId(w'.projects, p.id) && HasOrg(w'.projects, p.org.value))
    && CanSignIn(w', me)
  }

  /** A company of the caller's own, with a workspace to sign in to, within the number allowed. */
  ghost predicate CompanyFounded(cfg: Config, w: World, me: User, o: OrgId, w': World) {
    && o !in w.orgs && w'.orgs == w.orgs[o := Org(Company, "free")] && w'.members == w.members[(o, me) := "OWNER"]
    && HasOrg(w'.projects, o) && CanSignIn(w', me)
    && (cfg.billing ==> |CompaniesJoined(w', me)| <= cfg.maxOrgs)
  }

  lemma FounderCanSignIn(cfg: Config, w: World, w': World, me: User, x: Option<ProjectId>, now: Time, o: OrgId, project: ProjectId)
    requires Sound(w) && NewOrg(cfg, w, me, x, now, o, project) == Ok(w')
    ensures HasOrg(w'.projects, o) && CanSignIn(w', me)
  {
    var p := Project(project, now, Some(o));
    PlacedHolds(w.projects, p);
    PlacedOrdered(w.projects, p);
    OldestExactly(w', me);
    hide Sound, SelectMembership, Placed, CompaniesJoined, HasId;
    assert Reachable(w', me, p);
  }

  lemma FoundingMeaning(cfg: Config, w: World, w': World, me: User, x: Option<ProjectId>, now: Time, o: OrgId, project: ProjectId)
    requires Sound(w) && NewOrg(cfg, w, me, x, now, o, project) == Ok(w')
    ensures CompanyFounded(cfg, w, me, o, w')
  {
    var p := Project(project, now, Some(o));
    FounderCanSignIn(cfg, w, w', me, x, now, o, project);
    assert MemberSound(w, (o, me));
    hide Sound, SelectMembership, Placed, HasId;
    assert CompaniesJoined(w', me) == CompaniesJoined(w, me) + {o};
  }

  lemma InviteMeaning(cfg: Config, w: World, w': World, me: User, x: Option<ProjectId>, email: User, role: Role, token: Token, expires: Time)
    requires CreateInvitation(cfg, w, me, x, email, role, token, expires) == Ok(w')
    ensures SeatTaken(cfg, w, me, w')
  {
    var o := SelectMembership(w, me, x).value.org;
    AnswersAreMembers(w, me, x);
    SeatsInvited(cfg, w, w', me, x, email, role, token, expires, o);
    hide SeatCount;
    assert Runs(w, me, o);
  }

  lemma WorkspaceMeaning(cfg: Config, w: World, w': World, me: User, x: Option<ProjectId>, now: Time, project: ProjectId)
    requires NewWorkspace(cfg, w, me, x, now, project) == Ok(w')
    ensures WorkspaceAdded(cfg, w, me, w')
  {
    var o := SelectMembership(w, me, x).value.org;
    AnswersAreMembers(w, me, x);
    NewWorkspaceCount(cfg, w, w', me, x, now, project, o);
    hide WorkspaceCount;
    assert Runs(w, me, o);
  }

  lemma RemovalMeaning(cfg: Config, w: World, w': World, me: User, x: Option<ProjectId>, target: User)
    requires Sound(w) && RemoveMember(w, me, x, target) == Ok(w')
    ensures SeatFreed(w, me, target, w')
  {
    var o := SelectMembership(w, me, x).value.org;
    AnswersAreMembers(w, me, x);
    SeatsRemoved(w, w', me, x, target, o);
    if target == me { LeaversCanSignIn(cfg, w, OpRemove(me, x, target)); }
    hide SeatCount, Sound;
    assert (o, me) in w.members && (o, target) in w.members && (o, target) !in w'.members;
  }

  lemma DissolutionMeaning(cfg: Config, w: World, w': World, me: User, x: Option<ProjectId>)
    requires Sound(w) && DeleteOrg(w, me, x) == Ok(w')
    ensures Dissolves(w, me, w')
  {
    var o := SelectMembership(w, me, x).value.org;
    AnswersAreMembers(w, me, x);
    NoTraceLeft(w, w', me, x);
    LeaversCanSignIn(cfg, w, OpDelete(me, x));
    hide Sound, SelectMembership, NoTrace, Survivor;
    assert (o, me) in w.members && NoTrace(w', o);
  }

  lemma DeletionMeaning(cfg: Config, w: World, w': World, me: User, x: Option<ProjectId>)
    requires Sound(w) && DeleteWorkspace(w, me, x) == Ok(w')
    ensures WorkspaceGone(w, me, w')
  {
    var who := SelectMembership(w, me, x).value;
    AnswersAreRows(w, me, x);
    var p :| Answers(w, me, p, who);
    assert MemberSound(w, (who.org, me));
    DeletersCanSignIn(cfg, w, w', me, x);
    SiblingStays(w, who, p, who.org);
    WithoutIdHolds(w.projects, p.id);
    hide Sound, SelectMembership, WithoutId, HasSibling;
    assert Reachable(w, me, p) && Runs(w, me, p.org.value) && !HasId(w'.projects, p.id) && HasOrg(w'.projects, p.org.value);
  }

  class Database {
    const cfg: Config
    var users: map<User, string>
    var orgs: map<OrgId, Org>
    var members: map<(OrgId, User), Role>
    var projects: seq<Project>
    var invites: map<Token, Invite>

    ghost predicate Valid()
      reads this
    {
      Sound(View())
    }

    constructor (cfg: Config)
      ensures Valid() && this.cfg == cfg && View() == EMPTY
    {
      this.cfg := cfg;
      users, orgs, members, projects, invites := map[], map[], map[], [], map[];
    }

    function View(): World
      reads this
    {
      World(users, orgs, members, projects, invites)
    }

    method Rollback(w: World)
      modifies this
      ensures View() == w
    {
      users, orgs, members, projects, invites := w.users, w.orgs, w.members, w.projects, w.invites;
    }

    /** `create_organization`: the row, then its owner's membership. */
    method InsertOrg(org: OrgId, kind: Kind, owner: User)
      modifies this`orgs, this`members
      ensures View() == WithOrg(old(View()), org, kind, owner)
    {
      orgs := orgs[org := Org(kind, "free")];
      members := members[(org, owner) := "OWNER"];
    }

    /** Every workspace of the organization, then its members and invitations, then the organization. */
    method RemoveOrg(org: OrgId)
      modifies this
      ensures View() == WithoutOrg(old(View()), org)
    {
      projects := Outside(projects, org);
      members := members - Members(View(), org);
      invites := map t | t in invites && invites[t].org != org :: invites[t];
      orgs := orgs - {org};
    }

    /** The invitations that name the workspace, then the workspace. */
    method RemoveWorkspace(id: ProjectId)
      modifies this
      ensures View() == WithoutWorkspace(old(View()), id)
    {
      invites := map t | t in invites && invites[t].legacy != Some(id) :: invites[t];
      projects := WithoutId(projects, id);
    }

    method RegisterUser(email: User, password: string, now: Time, org: OrgId, project: ProjectId) returns (refused: Option<Refusal>)
      requires Valid()
      modifies this
      ensures Settled(old(View()), View(), Register(cfg, old(View()), email, password, now, org, project), refused)
      ensures Valid() && Lasting(old(View()), OpRegister(email, password, now, org, project), View())
      ensures refused.None? <==> MayRegister(cfg, old(View()), email, org, project)
    {
      ghost var w := View();
      assert Register(cfg, w, email, password, now, org, project).Ok? <==> MayRegister(cfg, w, email, org, project) by {
        RegisterExactly(cfg, w, email, password, now, org, project);
      }
      Honoured(cfg, w, OpRegister(email, password, now, org, project));
      hide Sound, Lasting;
      var first := users == map[];
      if !first && !cfg.publicSignup {
        return Some(Refused(409));
      }
      if !first && email in users {
        return Some(Refused(409));
      }
      if first {
        refused := BootstrapOwner(email, password, now, org, project);
      } else {
        refused := SignupPersonalAccount(email, password, now, org, project);
      }
    }

    /** The first registrant: company organization, adopting the oldest local project. */
    method BootstrapOwner(email: User, password: string, now: Time, org: OrgId, project: ProjectId) returns (refused: Option<Refusal>)
      modifies this
      ensures Settled(old(View()), View(), Bootstrap(old(View()), email, password, now, org, project), refused)
    {
      if org in orgs {
        return Some(Refused(500));
      }
      users := users[email := password];
      InsertOrg(org, Company, email);
      if projects == [] {
        projects := [Project(project, now, None)];
      }
      projects := projects[0 := projects[0].(org := Some(org))];
      refused := None;
    }

    method SignupPersonalAccount(email: User, password: string, now: Time, org: OrgId, project: ProjectId)
      returns (refused: Option<Refusal>)
      modifies this
      ensures Settled(old(View()), View(), SignupPersonal(old(View()), email, password, now, org, project), refused)
    {
      var saved := View();
      if org in orgs {
        return Some(Refused(500));
      }
      users := users[email := password];
      InsertOrg(org, Personal, email);
      refused := InsertWorkspace(org, now, project);
      if refused.Some? {
        Rollback(saved);
      }
    }

    /** `create_workspace`: the row, unless its key is taken. */
    method InsertWorkspace(org: OrgId, now: Time, project: ProjectId) returns (refused: Option<Refusal>)
      modifies this`projects
      ensures HasId(old(projects), project) ==> refused == Some(Refused(500)) && projects == old(projects)
      ensures !HasId(old(projects), project) ==> refused.None? && projects == Placed(old(projects), Project(project, now, Some(org)))
    {
      if HasId(projects, project) {
        return Some(Refused(500));
      }
      projects := Placed(projects, Project(project, now, Some(org)));
      refused := None;
    }

    /** The organization and its first workspace, or neither. */
    method InsertCompany(org: OrgId, me: User, now: Time, project: ProjectId) returns (refused: Option<Refusal>)
      modifies this
      ensures HasId(old(projects), project) ==> refused == Some(Refused(500)) && View() == old(View())
      ensures !HasId(old(projects), project) ==>
                && refused.None?
                && View() == WithOrg(old(View()), org, Company, me).(projects := Placed(old(projects), Project(project, now, Some(org))))
    {
      var saved := View();
      InsertOrg(org, Company, me);
      refused := InsertWorkspace(org, now, project);
      if refused.Some? {
        Rollback(saved);
      }
    }

    method CreateCompany(me: User, x: Option<ProjectId>, now: Time, org: OrgId, project: ProjectId) returns (refused: Option<Refusal>)
      requires Valid()
      modifies this
      ensures Settled(old(View()), View(), NewOrg(cfg, old(View()), me, x, now, org, project), refused)
      ensures Valid() && Lasting(old(View()), OpNewOrg(me, x, now, org, project), View())
      ensures refused.None? <==> MayFound(cfg, old(View()), me, x, org, project)
      ensures refused.None? ==> CompanyFounded(cfg, old(View()), me, org, View())
    {
      ghost var w := View();
      Honoured(cfg, w, OpNewOrg(me, x, now, org, project));
      ghost var out := NewOrg(cfg, w, me, x, now, org, project);
      assert out.Ok? <==> MayFound(cfg, w, me, x, org, project) by { NewOrgExactly(cfg, w, me, x, now, org, project); }
      if out.Ok? { FoundingMeaning(cfg, w, out.value, me, x, now, org, project); }
      hide Sound, Lasting, CompanyFounded, MayFound, Placed, HasOrg, HasId, WithOrg, SelectMembership;
      var who := SelectMembership(View(), me, x);
      if who.Err? {
        return Some(who.error);
      }
      if cfg.billing && |CompaniesJoined(View(), me)| >= cfg.maxOrgs {
        return Some(Refused(409));
      }
      if org in orgs {
        return Some(Refused(500));
      }
      refused := InsertCompany(org, me, now, project);
    }

    method CreateWorkspace(me: User, x: Option<ProjectId>, now: Time, project: ProjectId) returns (refused: Option<Refusal>)
      requires Valid()
      modifies this
      ensures Settled(old(View()), View(), NewWorkspace(cfg, old(View()), me, x, now, project), refused)
      ensures Valid() && Lasting(old(View()), OpNewWorkspace(me, x, now, project), View())
      ensures refused.None? <==> CanAddWorkspace(cfg, old(View()), me, x, project)
      ensures refused.None? ==> WorkspaceAdded(cfg, old(View()), me, View())
    {
      ghost var w := View();
      Honoured(cfg, w, OpNewWorkspace(me, x, now, project));
      ghost var out := NewWorkspace(cfg, w, me, x, now, project);
      assert out.Ok? <==> CanAddWorkspace(cfg, w, me, x, project) by {
        NewWorkspaceExactly(cfg, w, me, x, now, project);
      }
      if out.Ok? { WorkspaceMeaning(cfg, w, out.value, me, x, now, project); }
      hide Sound, Lasting;
      var who := SelectMembership(View(), me, x);
      if who.Err? {
        return Some(who.error);
      }
      if !Manages(who.value) {
        return Some(Refused(403));
      }
      if who.value.org !in orgs {
        return Some(Refused(404));
      }
      if cfg.billing {
        var limit := WorkspaceLimit(cfg, orgs[who.value.org]);
        if limit.Some? && WorkspaceCount(projects, who.value.org) >= limit.value {
          return Some(Refused(409));
        }
      }
      refused := InsertWorkspace(who.value.org, now, project);
    }

    /** `assert_can_add_seat`. */
    method AssertCanAddSeat(o: OrgId) returns (refused: Option<Refusal>)
      requires o in orgs
      ensures refused == SeatRefused(cfg, View(), o)
      ensures refused.None? <==> orgs[o].kind == Company && Fits(cfg, SeatCount(View(), o) + 1, SeatLimit(cfg, orgs[o]))
    {
      if orgs[o].kind == Personal {
        return Some(Refused(409));
      }
      if !cfg.billing {
        return None;
      }
      var limit := SeatLimit(cfg, orgs[o]);
      if limit.None? {
        return None;
      }
      if SeatCount(View(), o) >= limit.value {
        return Some(Refused(409));
      }
      return None;
    }

    method InviteMember(me: User, x: Option<ProjectId>, email: User, role: Role, token: Token, expires: Time) returns (refused: Option<Refusal>)
      requires Valid()
      modifies this
      ensures Settled(old(View()), View(), CreateInvitation(cfg, old(View()), me, x, email, role, token, expires), refused)
      ensures Valid() && Lasting(old(View()), OpInvite(me, x, email, role, token, expires), View())
      ensures refused.None? <==> CanInvite(cfg, old(View()), me, x, email, role, token)
      ensures refused.None? ==> SeatTaken(cfg, old(View()), me, View())
    {
      ghost var w := View();
      Honoured(cfg, w, OpInvite(me, x, email, role, token, expires));
      ghost var out := CreateInvitation(cfg, w, me, x, email, role, token, expires);
      assert out.Ok? <==> CanInvite(cfg, w, me, x, email, role, token) by {
        InviteExactly(cfg, w, me, x, email, role, token, expires);
      }
      if out.Ok? { InviteMeaning(cfg, w, out.value, me, x, email, role, token, expires); }
      hide Sound, Lasting;
      var who := SelectMembership(View(), me, x);
      if who.Err? {
        return Some(who.error);
      }
      if !Manages(who.value) {
        return Some(Refused(403));
      }
      if role !in {"ADMIN", "MEMBER"} {
        return Some(Refused(400));
      }
      var org := who.value.org;
      if org !in orgs {
        return Some(Refused(404));
      }
      refused := AssertCanAddSeat(org);
      if refused.Some? {
        return;
      }
      if email in users && (org, email) in members {
        return Some(Refused(409));
      }
      if token in invites {
        return Some(Refused(500));
      }
      invites := invites[token := Invite(org, email, role, expires, PENDING, None)];
    }

    /** Consume, create the account, attach the member, find a workspace; undo it all if there is none. */
    method AcceptInvitation(token: Token, password: string, now: Time) returns (refused: Option<Refusal>)
      requires Valid()
      modifies this
      ensures Settled(old(View()), View(), Accept(old(View()), token, password, now), refused)
      ensures Valid() && Lasting(old(View()), OpAccept(token, password, now), View())
      ensures refused.None? <==> MayAccept(old(View()), token, password, now)
      ensures refused.None? ==> Joined(old(View()), View(), token, password)
      ensures refused == Some(Refused(401)) <==>
                Offered(old(View()), token, now) && !Knows(old(View()), old(invites)[token].email, password)
      ensures refused.None? ==>
                var v := old(invites)[token];
                && (v.org, v.email) in members && invites[token].status == ACCEPTED
                && SeatCount(View(), v.org) == SeatCount(old(View()), v.org) - if (v.org, v.email) in old(members) then 1 else 0
    {
      ghost var w := View();
      AcceptExactly(w, token, password, now);
      Honoured(cfg, w, OpAccept(token, password, now));
      ghost var out := Accept(w, token, password, now);
      if out.Ok? { SeatsAccepted(w, out.value, token, password, now, w.invites[token].org); }
      hide Sound, Lasting;
      if token !in invites || invites[token].status != PENDING {
        return Some(Refused(400));
      }
      var inv := invites[token];
      if inv.expires <= now {
        return Some(Refused(400));
      }
      if inv.email in users && users[inv.email] != password {
        return Some(Refused(401));
      }
      var saved := View();
      invites := invites[token := inv.(status := ACCEPTED)];
      if inv.email !in users {
        users := users[inv.email := password];
      }
      if (inv.org, inv.email) !in members {
        members := members[(inv.org, inv.email) := inv.role];
      }
      if !HasOrg(projects, inv.org) {
        Rollback(saved);
        return Some(Refused(400));
      }
      refused := None;
    }

    method RevokeInvitation(me: User, x: Option<ProjectId>, token: Token) returns (refused: Option<Refusal>)
      requires Valid()
      modifies this
      ensures Settled(old(View()), View(), Revoke(old(View()), me, x, token), refused)
      ensures Valid() && Lasting(old(View()), OpRevoke(me, x, token), View())
      ensures refused.None? <==> CanRevoke(old(View()), me, x, token)
      ensures refused.None? ==>
                && token in old(invites) && Runs(old(View()), me, old(invites)[token].org)
                && token in invites && invites[token].status != PENDING
                && forall t :: t != token ==> Find(invites, t) == Find(old(invites), t)
    {
      ghost var w := View();
      Honoured(cfg, w, OpRevoke(me, x, token));
      assert Revoke(w, me, x, token).Ok? <==> CanRevoke(w, me, x, token) by {
        RevokeExactly(w, me, x, token);
      }
      if SelectMembership(w, me, x).Ok? {
        AnswersAreMembers(w, me, x);
        assert MemberSound(w, (SelectMembership(w, me, x).value.org, me));
      }
      hide Sound, Lasting;
      var who := SelectMembership(View(), me, x);
      if who.Err? {
        return Some(who.error);
      }
      if !Manages(who.value) {
        return Some(Refused(403));
      }
      if token !in invites || invites[token].org != who.value.org {
        return Some(Refused(404));
      }
      if invites[token].status == PENDING {
        invites := invites[token := invites[token].(status := REVOKED)];
      }
      refused := None;
    }

    method DropMember(me: User, x: Option<ProjectId>, target: User) returns (refused: Option<Refusal>)
      requires Valid()
      modifies this
      ensures Settled(old(View()), View(), RemoveMember(old(View()), me, x, target), refused)
      ensures Valid() && Lasting(old(View()), OpRemove(me, x, target), View())
      ensures refused.None? <==> CanRemove(old(View()), me, x, target)
      ensures refused.None? ==> SeatFreed(old(View()), me, target, View())
    {
      ghost var w := View();
      Honoured(cfg, w, OpRemove(me, x, target));
      ghost var out := RemoveMember(w, me, x, target);
      assert out.Ok? <==> CanRemove(w, me, x, target) by { RemoveExactly(w, me, x, target); }
      if out.Ok? { RemovalMeaning(cfg, w, out.value, me, x, target); }
      hide Sound, Lasting;
      var who := SelectMembership(View(), me, x);
      if who.Err? {
        return Some(who.error);
      }
      var org := who.value.org;
      if org !in orgs || (org, target) !in members {
        return Some(Refused(404));
      }
      var isSelf, targetRole := target == me, members[(org, target)];
      if !isSelf && !Manages(who.value) {
        return Some(Refused(403));
      }
      if targetRole == "OWNER" && !isSelf && who.value.role != "OWNER" {
        return Some(Refused(403));
      }
      if isSelf && orgs[org].kind != Company {
        return Some(Refused(400));
      }
      if targetRole == "OWNER" && |Owners(View(), org)| == 1 {
        return Some(Refused(409));
      }
      if isSelf && !Survivor(View(), me, org) {
        return Some(Refused(409));
      }
      members := members - {(org, target)};
      refused := None;
    }

    method DeleteOrganization(me: User, x: Option<ProjectId>) returns (refused: Option<Refusal>)
      requires Valid()
      modifies this
      ensures Settled(old(View()), View(), DeleteOrg(old(View()), me, x), refused)
      ensures Valid() && Lasting(old(View()), OpDelete(me, x), View())
      ensures refused.None? <==> CanDissolve(old(View()), me, x)
      ensures refused.None? ==> Dissolves(old(View()), me, View())
    {
      ghost var w := View();
      Honoured(cfg, w, OpDelete(me, x));
      ghost var out := DeleteOrg(w, me, x);
      assert out.Ok? <==> CanDissolve(w, me, x) by { DeleteOrgExactly(w, me, x); }
      if out.Ok? { DissolutionMeaning(cfg, w, out.value, me, x); }
      hide Sound, Lasting, CanDissolve, Dissolves, SelectMembership, Survivor, WithoutOrg;
      var who := SelectMembership(View(), me, x);
      if who.Err? {
        return Some(who.error);
      }
      if who.value.role != "OWNER" {
        return Some(Refused(403));
      }
      var org := who.value.org;
      if org !in orgs {
        return Some(Refused(404));
      }
      if orgs[org].kind != Company {
        return Some(Refused(400));
      }
      if !Survivor(View(), me, org) {
        return Some(Refused(409));
      }
      RemoveOrg(org);
      assert View() == out.value;
      refused := None;
    }

    /** The caller's active workspace, unless it is the organization's last. */
    method DeleteActiveWorkspace(me: User, x: Option<ProjectId>) returns (refused: Option<Refusal>)
      requires Valid()
      modifies this
      ensures Settled(old(View()), View(), DeleteWorkspace(old(View()), me, x), refused)
      ensures Valid() && Lasting(old(View()), OpDeleteWorkspace(me, x), View())
      ensures refused.None? <==> CanDelete(old(View()), me, x)
      ensures refused.None? ==> WorkspaceGone(old(View()), me, View())
    {
      ghost var w := View();
      Honoured(cfg, w, OpDeleteWorkspace(me, x));
      ghost var out := DeleteWorkspace(w, me, x);
      assert out.Ok? <==> CanDelete(w, me, x) by { DeleteWorkspaceExactly(w, me, x); }
      if out.Ok? { DeletionMeaning(cfg, w, out.value, me, x); }
      hide Sound, Lasting, CanDelete, WorkspaceGone, SelectMembership, HasSibling, WithoutWorkspace;
      var who := SelectMembership(View(), me, x);
      if who.Err? {
        return Some(who.error);
      }
      if !Manages(who.value) {
        return Some(Refused(403));
      }
      if !HasSibling(projects, who.value) {
        return Some(Refused(409));
      }
      RemoveWorkspace(who.value.project);
      assert View() == out.value;
      refused := None;
    }
  }
}
