/** When each account request goes through, and what it then leaves, told of the rows and of the counts of seats and
    workspaces: no condition and no outcome here mentions the guards the operations are written with. */
module AccountsGrants {
  import opened Prelude
  import opened AccountsSpec
  import opened AccountsAccess
  import opened AccountsInvariants
  import opened AccountsCaps

  // ---------------------------------------------------------------- the caller's workspace

  predicate Open(w: World, me: User, p: Project) {
    p in w.projects && p.org.Some? && (p.org.value, me) in w.members
  }

  /** The workspace a request is made from: the one its header names, or else the oldest the caller can open. */
  ghost predicate ActsFrom(w: World, me: User, x: Option<ProjectId>, p: Project) {
    && Open(w, me, p)
    && (x.Some? ==> p.id == x.value)
    && (x.None? ==> forall q <- w.projects :: Open(w, me, q) && q != p ==>
                      p.created < q.created || (p.created == q.created && p.id < q.id))
  }

  function RoleAt(w: World, me: User, p: Project): Role
    requires Open(w, me, p)
  {
    w.members[(p.org.value, me)]
  }

  lemma ActsExactly(w: World, me: User, x: Option<ProjectId>)
    requires Sound(w)
    ensures SelectMembership(w, me, x).Ok? <==> exists p :: ActsFrom(w, me, x, p)
    ensures SelectMembership(w, me, x).Err? ==> SelectMembership(w, me, x).error == Refused(403)
    ensures forall p :: ActsFrom(w, me, x, p) ==>
              SelectMembership(w, me, x) == Ok(Principal(p.id, p.org.value, RoleAt(w, me, p))) && p.org.value in w.orgs && me in w.users
  {
    hide SelectMembership;
    if x.Some? { NamedExactly(w, me, x.value); } else { OldestExactly(w, me); }
    forall p | Open(w, me, p) ensures Reachable(w, me, p) && p.org.value in w.orgs && me in w.users {
      assert MemberSound(w, (p.org.value, me));
    }
    forall p | Reachable(w, me, p) ensures Open(w, me, p) {}
    if SelectMembership(w, me, x).Ok? {
      var who := SelectMembership(w, me, x).value;
      var r :| Answers(w, me, r, who) && (x.Some? ==> r.id == x.value)
                 && (x.None? ==> forall q :: Reachable(w, me, q) && q != r ==> Before(r, q));
      assert ActsFrom(w, me, x, r);
      forall p | ActsFrom(w, me, x, p) ensures p == r {
        if p != r { IdsUnique(w.projects, p, r); }
      }
    }
    forall p | ActsFrom(w, me, x, p) ensures SelectMembership(w, me, x).Ok? { assert Reachable(w, me, p); }
    RefusedIs403(w, me, x);
  }

  lemma RefusedIs403(w: World, me: User, x: Option<ProjectId>)
    ensures SelectMembership(w, me, x).Err? ==> SelectMembership(w, me, x).error == Refused(403)
  {
  }

  lemma ActsOnce(w: World, me: User, x: Option<ProjectId>)
    requires Sound(w)
    ensures SelectMembership(w, me, x).Ok? <==> exists p :: ActsFrom(w, me, x, p)
    ensures SelectMembership(w, me, x).Err? ==> SelectMembership(w, me, x).error == Refused(403)
    ensures forall p :: ActsFrom(w, me, x, p) ==>
              && SelectMembership(w, me, x) == Ok(Principal(p.id, p.org.value, RoleAt(w, me, p)))
              && p.org.value in w.orgs && forall q :: ActsFrom(w, me, x, q) ==> q == p
  {
    ActsExactly(w, me, x);
    hide SelectMembership;
    forall p, q | ActsFrom(w, me, x, p) && ActsFrom(w, me, x, q) ensures q == p {
      if q != p { IdsUnique(w.projects, p, q); }
    }
  }

  /** ... in which the caller is an owner or an admin. */
  ghost predicate ManagesFrom(w: World, me: User, x: Option<ProjectId>, p: Project) {
    ActsFrom(w, me, x, p) && RoleAt(w, me, p) in {"OWNER", "ADMIN"}
  }

  ghost predicate Forbidden(w: World, me: User, x: Option<ProjectId>) {
    forall p :: !ManagesFrom(w, me, x, p)
  }

  lemma ManagesExactly(w: World, me: User, x: Option<ProjectId>)
    requires Sound(w)
    ensures SelectMembership(w, me, x).Err? ==> SelectMembership(w, me, x).error == Refused(403) && Forbidden(w, me, x)
    ensures SelectMembership(w, me, x).Ok? ==>
              exists p :: && ActsFrom(w, me, x, p) && p.org.value in w.orgs
                          && SelectMembership(w, me, x).value == Principal(p.id, p.org.value, RoleAt(w, me, p))
                          && (Manages(SelectMembership(w, me, x).value) <==> ManagesFrom(w, me, x, p))
                          && forall q :: ActsFrom(w, me, x, q) ==> q == p
  {
    ActsOnce(w, me, x);
    hide SelectMembership, Sound;
    if p :| ActsFrom(w, me, x, p) {
      assert Manages(SelectMembership(w, me, x).value) <==> ManagesFrom(w, me, x, p);
    }
  }

  // ---------------------------------------------------------------- one row more or less

  /** The map is as it was, except that this key now has this value, or none. */
  ghost predicate Only<K(!new), V(!new)>(m: map<K, V>, m': map<K, V>, k: K, v: Option<V>) {
    forall x :: Find(m', x) == if x == k then v else Find(m, x)
  }

  ghost predicate Same<K(!new), V(!new)>(m: map<K, V>, m': map<K, V>) { forall x :: Find(m', x) == Find(m, x) }

  ghost predicate OneMore(ps: seq<Project>, ps': seq<Project>, p: Project) {
    forall q :: q in ps' <==> q == p || q in ps
  }

  predicate Unused(w: World, id: ProjectId) { forall p <- w.projects :: p.id != id }

  // ---------------------------------------------------------------- accepting an invitation

  /** Still open at this time. */
  predicate Offered(w: World, token: Token, now: Time) {
    token in w.invites && w.invites[token].status == PENDING && now < w.invites[token].expires
  }

  /** The password is that of the account under this address, if there is one. */
  predicate Knows(w: World, email: User, password: string) { email in w.users ==> w.users[email] == password }

  predicate MayAccept(w: World, token: Token, password: string, now: Time) {
    && Offered(w, token, now) && Knows(w, w.invites[token].email, password)
    && exists p <- w.projects :: p.org == Some(w.invites[token].org)
  }

  /** The account, with this password if it is new; the membership, in the invited role if it is new; and the
      invitation, spent. */
  ghost predicate Joined(w: World, w': World, token: Token, password: string)
    requires token in w.invites
  {
    var v := w.invites[token];
    && Only(w.users, w'.users, v.email, Some(if v.email in w.users then w.users[v.email] else password))
    && Only(w.members, w'.members, (v.org, v.email), Some(if (v.org, v.email) in w.members then w.members[(v.org, v.email)] else v.role))
    && Only(w.invites, w'.invites, token, Some(Invite(v.org, v.email, v.role, v.expires, ACCEPTED, v.legacy)))
    && Same(w.orgs, w'.orgs) && w'.projects == w.projects
  }

  /** An acceptance goes through exactly for an open invitation, with the password of any account there is, into an
      organization with a workspace; a wrong password is told apart. */
  lemma AcceptExactly(w: World, token: Token, password: string, now: Time)
    ensures var r := Accept(w, token, password, now);
            && (r.Ok? <==> MayAccept(w, token, password, now))
            && (r.Ok? ==> Joined(w, r.value, token, password))
            && (r == Err(Refused(401)) <==> Offered(w, token, now) && !Knows(w, w.invites[token].email, password))
            && (r.Err? ==> r.error in {Refused(400), Refused(401)})
  {
  }

  // ---------------------------------------------------------------- registering

  predicate MayRegister(cfg: Config, w: World, email: User, org: OrgId, project: ProjectId) {
    org !in w.orgs && (w.users == map[] || (cfg.publicSignup && email !in w.users && Unused(w, project)))
  }

  predicate Closed(cfg: Config, w: World, email: User) {
    w.users != map[] && (!cfg.publicSignup || email in w.users)
  }

  predicate Oldest(ps: seq<Project>, p: Project) {
    p in ps && forall q <- ps :: q != p ==> p.created < q.created || (p.created == q.created && p.id < q.id)
  }

  /** A first registrant takes the oldest project over, if there is one. */
  ghost predicate TakenOver(ps: seq<Project>, ps': seq<Project>, org: OrgId) {
    forall q :: q in ps' <==> (q in ps && !Oldest(ps, q)) || exists p <- ps :: Oldest(ps, p) && q == Project(p.id, p.created, Some(org))
  }

  /** The account with this password, owning a new organization on the free plan. */
  ghost predicate Owns(w: World, w': World, email: User, org: OrgId, kind: Kind) {
    && Only(w.orgs, w'.orgs, org, Some(Org(kind, "free")))
    && Only(w.members, w'.members, (org, email), Some("OWNER"))
    && Same(w.invites, w'.invites)
  }

  lemma RegisterExactly(cfg: Config, w: World, email: User, password: string, now: Time, org: OrgId, project: ProjectId)
    requires Sound(w)
    ensures var r := Register(cfg, w, email, password, now, org, project);
            && (r.Ok? <==> MayRegister(cfg, w, email, org, project))
            && (r.Ok? ==> if w.users == map[] then FirstIn(w, r.value, email, password, now, org, project)
                          else SignedUp(w, r.value, email, password, now, org, project))
            && (r == Err(Refused(409)) <==> Closed(cfg, w, email))
            && (r.Err? ==> r.error in {Refused(409), Refused(500)})
  {
    BootstrapExactly(w, email, password, now, org, project);
    SignupExactly(w, email, password, now, org, project);
    hide Sound, FirstIn, SignedUp, Bootstrap, SignupPersonal;
  }

  /** The first registrant: a company, which takes the oldest project over or has a new one. */
  ghost predicate FirstIn(w: World, w': World, email: User, password: string, now: Time, org: OrgId, project: ProjectId) {
    && Only(w.users, w'.users, email, Some(password)) && Owns(w, w', email, org, Company)
    && if w.projects != [] then TakenOver(w.projects, w'.projects, org)
       else OneMore(w.projects, w'.projects, Project(project, now, Some(org)))
  }

  /** Anybody else: a personal account with a workspace of its own. */
  ghost predicate SignedUp(w: World, w': World, email: User, password: string, now: Time, org: OrgId, project: ProjectId) {
    && Only(w.users, w'.users, email, Some(password)) && Owns(w, w', email, org, Personal)
    && OneMore(w.projects, w'.projects, Project(project, now, Some(org)))
  }

  lemma BootstrapExactly(w: World, email: User, password: string, now: Time, org: OrgId, project: ProjectId)
    requires Sound(w)
    ensures var r := Bootstrap(w, email, password, now, org, project);
            if org in w.orgs then r == Err(Refused(500)) else r.Ok? && FirstIn(w, r.value, email, password, now, org, project)
  {
    if w.projects != [] { AdoptedRows(w.projects, org); }
    hide Sound, TakenOver;
  }

  lemma SignupExactly(w: World, email: User, password: string, now: Time, org: OrgId, project: ProjectId)
    ensures var r := SignupPersonal(w, email, password, now, org, project);
            if org in w.orgs || !Unused(w, project) then r == Err(Refused(500))
            else r.Ok? && SignedUp(w, r.value, email, password, now, org, project)
  {
    PlacedHolds(w.projects, Project(project, now, Some(org)));
    hide Placed;
  }

  lemma AdoptedRows(ps: seq<Project>, org: OrgId)
    requires Ordered(ps) && ps != []
    ensures TakenOver(ps, ps[0 := ps[0].(org := Some(org))], org)
  {
    var ps' := ps[0 := ps[0].(org := Some(org))];
    forall p <- ps ensures Oldest(ps, p) <==> p == ps[0] {
      var i :| 0 <= i < |ps| && ps[i] == p;
      forall q <- ps | q != ps[0] ensures Before(ps[0], q) {
        var j :| 0 <= j < |ps| && ps[j] == q;
      }
      if i > 0 { assert Before(ps[0], p) && !Before(p, ps[0]); }
    }
    forall q ensures q in ps' <==> (q in ps && !Oldest(ps, q)) || exists p <- ps :: Oldest(ps, p) && q == Project(p.id, p.created, Some(org)) {
      if q in ps' {
        var i :| 0 <= i < |ps'| && ps'[i] == q;
        if i == 0 { assert ps[0] in ps && q == Project(ps[0].id, ps[0].created, Some(org)); } else { assert ps[i] == q && ps[i] != ps[0]; }
      }
      if q in ps && !Oldest(ps, q) {
        var i :| 0 <= i < |ps| && ps[i] == q;
        assert ps'[i] == q;
      }
      if p :| p in ps && Oldest(ps, p) && q == Project(p.id, p.created, Some(org)) { assert ps'[0] == q; }
    }
  }

  // ---------------------------------------------------------------- founding and adding

  ghost predicate MayFound(cfg: Config, w: World, me: User, x: Option<ProjectId>, org: OrgId, project: ProjectId) {
    && (exists p :: ActsFrom(w, me, x, p))
    && (cfg.billing ==> |set o | o in w.orgs && (o, me) in w.members && w.orgs[o].kind == Company| < cfg.maxOrgs)
    && org !in w.orgs && Unused(w, project)
  }

  lemma NewOrgExactly(cfg: Config, w: World, me: User, x: Option<ProjectId>, now: Time, org: OrgId, project: ProjectId)
    requires Sound(w)
    ensures var r := NewOrg(cfg, w, me, x, now, org, project);
            && (r.Ok? <==> MayFound(cfg, w, me, x, org, project))
            && (r.Ok? ==> && Owns(w, r.value, me, org, Company) && Same(w.users, r.value.users)
                          && OneMore(w.projects, r.value.projects, Project(project, now, Some(org))))
            && (r == Err(Refused(403)) <==> forall p :: !ActsFrom(w, me, x, p))
            && (r.Err? ==> r.error in {Refused(403), Refused(409), Refused(500)})
  {
    ActsExactly(w, me, x);
    PlacedHolds(w.projects, Project(project, now, Some(org)));
    assert CompaniesJoined(w, me) == set o | o in w.orgs && (o, me) in w.members && w.orgs[o].kind == Company;
    hide SelectMembership, Sound, Placed, ActsFrom;
  }

  /** At most this many on this plan: one for a personal account, and by plan for a company. */
  predicate Allows(kind: Kind, plan: string, n: nat, free: int, pro: int) {
    plan == "unlimited" || n <= (if kind == Personal then 1 else if plan == "pro" then pro else free)
  }

  /** The limits are these, for seats and workspaces alike. */
  lemma LimitsExactly(cfg: Config, o: Org, n: nat)
    ensures (Allows(o.kind, o.plan, n, cfg.freeSeats, cfg.proSeats) <==> SeatLimit(cfg, o).None? || n <= SeatLimit(cfg, o).value)
    ensures (Allows(o.kind, o.plan, n, cfg.freeSpaces, cfg.proSpaces) <==> WorkspaceLimit(cfg, o).None? || n <= WorkspaceLimit(cfg, o).value)
  {
  }

  ghost predicate MayAddWorkspace(cfg: Config, w: World, p: Project, project: ProjectId)
    requires p.org.Some?
  {
    var o := p.org.value;
    && o in w.orgs && Unused(w, project)
    && (cfg.billing ==> Allows(w.orgs[o].kind, w.orgs[o].plan, WorkspaceCount(w.projects, o) + 1, cfg.freeSpaces, cfg.proSpaces))
  }

  ghost predicate CanAddWorkspace(cfg: Config, w: World, me: User, x: Option<ProjectId>, project: ProjectId) {
    exists p :: ManagesFrom(w, me, x, p) && MayAddWorkspace(cfg, w, p, project)
  }

  lemma NewWorkspaceExactly(cfg: Config, w: World, me: User, x: Option<ProjectId>, now: Time, project: ProjectId)
    requires Sound(w)
    ensures var r := NewWorkspace(cfg, w, me, x, now, project);
            && (r.Ok? <==> CanAddWorkspace(cfg, w, me, x, project))
            && (r.Ok? ==> forall p :: ManagesFrom(w, me, x, p) ==>
                  && OneMore(w.projects, r.value.projects, Project(project, now, p.org))
                  && r.value == w.(projects := r.value.projects))
            && (r == Err(Refused(403)) <==> Forbidden(w, me, x))
            && (r.Err? ==> r.error in {Refused(403), Refused(409), Refused(500)})
  {
    ActsOnce(w, me, x);
    hide ActsFrom, MayAddWorkspace, Sound;
    if p :| ActsFrom(w, me, x, p) {
      NewWorkspaceFrom(cfg, w, me, x, now, project, p);
      assert Forbidden(w, me, x) <==> !ManagesFrom(w, me, x, p);
      hide NewWorkspace, SelectMembership, OneMore;
    } else {
      hide SelectMembership;
    }
  }

  lemma NewWorkspaceFrom(cfg: Config, w: World, me: User, x: Option<ProjectId>, now: Time, project: ProjectId, p: Project)
    requires Open(w, me, p) && SelectMembership(w, me, x) == Ok(Principal(p.id, p.org.value, RoleAt(w, me, p))) && p.org.value in w.orgs
    ensures var r := NewWorkspace(cfg, w, me, x, now, project);
            && (r.Ok? <==> RoleAt(w, me, p) in {"OWNER", "ADMIN"} && MayAddWorkspace(cfg, w, p, project))
            && (r.Ok? ==> && OneMore(w.projects, r.value.projects, Project(project, now, p.org))
                          && r.value == w.(projects := r.value.projects))
            && (r == Err(Refused(403)) <==> RoleAt(w, me, p) !in {"OWNER", "ADMIN"})
            && (r.Err? ==> r.error in {Refused(403), Refused(409), Refused(500)})
  {
    PlacedHolds(w.projects, Project(project, now, p.org));
    hide SelectMembership, Placed, WorkspaceCount;
  }

  // ---------------------------------------------------------------- inviting and revoking

  predicate MayInvite(cfg: Config, w: World, p: Project, email: User, role: Role, token: Token)
    requires p.org.Some?
  {
    var o := p.org.value;
    && role in {"ADMIN", "MEMBER"} && o in w.orgs && w.orgs[o].kind == Company
    && (cfg.billing ==> Allows(Company, w.orgs[o].plan, SeatCount(w, o) + 1, cfg.freeSeats, cfg.proSeats))
    && (o, email) !in w.members && token !in w.invites
  }

  ghost predicate CanInvite(cfg: Config, w: World, me: User, x: Option<ProjectId>, email: User, role: Role, token: Token) {
    exists p :: ManagesFrom(w, me, x, p) && MayInvite(cfg, w, p, email, role, token)
  }

  lemma InviteExactly(cfg: Config, w: World, me: User, x: Option<ProjectId>, email: User, role: Role, token: Token, expires: Time)
    requires Sound(w)
    ensures var r := CreateInvitation(cfg, w, me, x, email, role, token, expires);
            && (r.Ok? <==> CanInvite(cfg, w, me, x, email, role, token))
            && (r.Ok? ==> forall p :: ManagesFrom(w, me, x, p) ==>
                  && Only(w.invites, r.value.invites, token, Some(Invite(p.org.value, email, role, expires, PENDING, None)))
                  && r.value == w.(invites := r.value.invites))
            && (r == Err(Refused(403)) <==> Forbidden(w, me, x))
            && (r == Err(Refused(400)) <==> !Forbidden(w, me, x) && role !in {"ADMIN", "MEMBER"})
            && (r.Err? ==> r.error in {Refused(400), Refused(403), Refused(409), Refused(500)})
  {
    ActsOnce(w, me, x);
    if p :| ActsFrom(w, me, x, p) {
      assert MemberSound(w, (p.org.value, email));
      InviteFrom(cfg, w, me, x, email, role, token, expires, p);
      assert Forbidden(w, me, x) <==> !ManagesFrom(w, me, x, p);
      hide ActsFrom, MayInvite, Sound, CreateInvitation, SelectMembership;
    } else {
      hide ActsFrom, Sound, SelectMembership;
    }
  }

  lemma InviteFrom(cfg: Config, w: World, me: User, x: Option<ProjectId>, email: User, role: Role, token: Token, expires: Time, p: Project)
    requires Open(w, me, p) && SelectMembership(w, me, x) == Ok(Principal(p.id, p.org.value, RoleAt(w, me, p))) && p.org.value in w.orgs
    requires (p.org.value, email) in w.members ==> email in w.users
    ensures var r := CreateInvitation(cfg, w, me, x, email, role, token, expires);
            && (r.Ok? <==> RoleAt(w, me, p) in {"OWNER", "ADMIN"} && MayInvite(cfg, w, p, email, role, token))
            && (r.Ok? ==>
                  && Only(w.invites, r.value.invites, token, Some(Invite(p.org.value, email, role, expires, PENDING, None)))
                  && r.value == w.(invites := r.value.invites))
            && (r == Err(Refused(403)) <==> RoleAt(w, me, p) !in {"OWNER", "ADMIN"})
            && (r == Err(Refused(400)) <==> RoleAt(w, me, p) in {"OWNER", "ADMIN"} && role !in {"ADMIN", "MEMBER"})
            && (r.Err? ==> r.error in {Refused(400), Refused(403), Refused(409), Refused(500)})
  {
    hide SelectMembership, SeatCount;
  }

  ghost predicate CanRevoke(w: World, me: User, x: Option<ProjectId>, token: Token) {
    exists p :: ManagesFrom(w, me, x, p) && token in w.invites && Some(w.invites[token].org) == p.org
  }

  lemma RevokeExactly(w: World, me: User, x: Option<ProjectId>, token: Token)
    requires Sound(w)
    ensures var r := Revoke(w, me, x, token);
            && (r.Ok? <==> CanRevoke(w, me, x, token))
            && (r.Ok? ==>
                  var v := w.invites[token];
                  && Only(w.invites, r.value.invites, token, Some(if v.status == PENDING then v.(status := REVOKED) else v))
                  && r.value == w.(invites := r.value.invites))
            && (r == Err(Refused(403)) <==> Forbidden(w, me, x))
            && (r.Err? ==> r.error in {Refused(403), Refused(404)})
  {
    ManagesExactly(w, me, x);
    hide SelectMembership, Sound, ActsFrom, Manages;
  }

  // ---------------------------------------------------------------- leaving and deleting

  /** A workspace of another organization to go on working in. */
  predicate HasElsewhere(w: World, me: User, o: OrgId) { exists q <- w.projects :: Open(w, me, q) && q.org != Some(o) }

  predicate OtherOwner(w: World, o: OrgId, target: User) {
    exists k <- w.members.Keys :: k.0 == o && k.1 != target && w.members[k] == "OWNER"
  }

  lemma SurvivorExactly(w: World, me: User, o: OrgId)
    ensures Survivor(w, me, o) <==> HasElsewhere(w, me, o)
  {
    forall q ensures q in Workspaces(w.projects, w.members, me) <==> Open(w, me, q) {
      WorkspacesHold(w.projects, w.members, me, q);
    }
    if q :| q in w.projects && Open(w, me, q) && q.org != Some(o) { assert q in Workspaces(w.projects, w.members, me); }
    if Survivor(w, me, o) {
      var q :| q in Workspaces(w.projects, w.members, me) && q.org != Some(o);
      assert Open(w, me, q) && q in w.projects;
    }
  }

  lemma LastOwner(w: World, o: OrgId, target: User)
    requires (o, target) in w.members && w.members[(o, target)] == "OWNER"
    ensures |Owners(w, o)| == 1 <==> !OtherOwner(w, o, target)
  {
    var owners, me := Owners(w, o), (o, target);
    assert me in owners;
    if OtherOwner(w, o, target) {
      var k :| k in w.members.Keys && k.0 == o && k.1 != target && w.members[k] == "OWNER";
      assert {k, me} <= owners;
      CardSubset({k, me}, owners);
    } else {
      forall k ensures k in owners <==> k == me {}
      assert owners == {me};
    }
  }

  predicate IsMember(w: World, p: Project, u: User) { p.org.Some? && (p.org.value, u) in w.members }

  /** Oneself; anybody, as an owner; anybody but an owner, as an admin. */
  predicate MayTouch(w: World, me: User, p: Project, target: User)
    requires Open(w, me, p) && IsMember(w, p, target)
  {
    || target == me || RoleAt(w, me, p) == "OWNER"
    || (RoleAt(w, me, p) == "ADMIN" && w.members[(p.org.value, target)] != "OWNER")
  }

  /** Leaving oneself, out of a company and with somewhere else to go; or removing somebody, as an owner or admin, and
      an owner only as an owner. The last owner stays. */
  ghost predicate MayRemove(w: World, me: User, p: Project, target: User)
    requires Open(w, me, p)
  {
    var o := p.org.value;
    && IsMember(w, p, target) && o in w.orgs && MayTouch(w, me, p, target)
    && (target == me ==> w.orgs[o].kind == Company && HasElsewhere(w, me, o))
    && (w.members[(o, target)] == "OWNER" ==> OtherOwner(w, o, target))
  }

  ghost predicate CanRemove(w: World, me: User, x: Option<ProjectId>, target: User) {
    exists p :: ActsFrom(w, me, x, p) && MayRemove(w, me, p, target)
  }

  lemma RemoveExactly(w: World, me: User, x: Option<ProjectId>, target: User)
    requires Sound(w)
    ensures var r := RemoveMember(w, me, x, target);
            && (r.Ok? <==> CanRemove(w, me, x, target))
            && (r.Ok? ==> forall p :: ActsFrom(w, me, x, p) ==>
                  && Only(w.members, r.value.members, (p.org.value, target), None)
                  && r.value == w.(members := r.value.members))
            && (r == Err(Refused(403)) <==> forall p :: ActsFrom(w, me, x, p) ==> IsMember(w, p, target) && !MayTouch(w, me, p, target))
            && (r == Err(Refused(404)) <==> exists p :: ActsFrom(w, me, x, p) && !IsMember(w, p, target))
            && (r.Err? ==> r.error in {Refused(400), Refused(403), Refused(404), Refused(409)})
  {
    ActsOnce(w, me, x);
    hide ActsFrom;
    if p :| ActsFrom(w, me, x, p) { RemoveFrom(w, me, x, target, p); } else { hide MayRemove; }
  }

  lemma RemoveFrom(w: World, me: User, x: Option<ProjectId>, target: User, p: Project)
    requires ActsFrom(w, me, x, p) && SelectMembership(w, me, x) == Ok(Principal(p.id, p.org.value, RoleAt(w, me, p))) && p.org.value in w.orgs
    ensures var r := RemoveMember(w, me, x, target);
            && (r.Ok? <==> MayRemove(w, me, p, target))
            && (r.Ok? ==> && Only(w.members, r.value.members, (p.org.value, target), None)
                          && r.value == w.(members := r.value.members))
            && (r == Err(Refused(403)) <==> IsMember(w, p, target) && !MayTouch(w, me, p, target))
            && (r == Err(Refused(404)) <==> !IsMember(w, p, target))
            && (r.Err? ==> r.error in {Refused(400), Refused(403), Refused(404), Refused(409)})
  {
    SurvivorExactly(w, me, p.org.value);
    if (p.org.value, target) in w.members && w.members[(p.org.value, target)] == "OWNER" { LastOwner(w, p.org.value, target); }
    hide SelectMembership, Survivor, Owners, HasElsewhere, OtherOwner;
  }

  /** Nothing of the organization is left, and everything else is. */
  ghost predicate Gone(w: World, w': World, o: OrgId) {
    && Only(w.orgs, w'.orgs, o, None)
    && (forall k :: Find(w'.members, k) == if k.0 == o then None else Find(w.members, k))
    && (forall t :: Find(w'.invites, t) == if t in w.invites && w.invites[t].org == o then None else Find(w.invites, t))
    && (forall q :: q in w'.projects <==> q in w.projects && q.org != Some(o))
    && w'.users == w.users
  }

  ghost predicate MayDissolve(w: World, me: User, p: Project)
    requires Open(w, me, p)
  {
    && RoleAt(w, me, p) == "OWNER" && p.org.value in w.orgs && w.orgs[p.org.value].kind == Company
    && HasElsewhere(w, me, p.org.value)
  }

  ghost predicate CanDissolve(w: World, me: User, x: Option<ProjectId>) {
    exists p :: ActsFrom(w, me, x, p) && MayDissolve(w, me, p)
  }

  lemma DeleteOrgExactly(w: World, me: User, x: Option<ProjectId>)
    requires Sound(w)
    ensures var r := DeleteOrg(w, me, x);
            && (r.Ok? <==> CanDissolve(w, me, x))
            && (r.Ok? ==> forall p :: ActsFrom(w, me, x, p) ==> Gone(w, r.value, p.org.value))
            && (r == Err(Refused(403)) <==> forall p :: !(ActsFrom(w, me, x, p) && RoleAt(w, me, p) == "OWNER"))
            && (r.Err? ==> r.error in {Refused(400), Refused(403), Refused(409)})
  {
    ActsOnce(w, me, x);
    if p :| ActsFrom(w, me, x, p) {
      SurvivorExactly(w, me, p.org.value);
      GoneRows(w, p.org.value);
    }
    hide SelectMembership, Sound, Survivor, HasElsewhere, WithoutOrg, Gone, ActsFrom;
  }

  lemma GoneRows(w: World, o: OrgId)
    ensures Gone(w, WithoutOrg(w, o), o)
  {
    OutsideHolds(w.projects, o);
  }

  /** Another workspace of the same organization. */
  predicate HasTwin(w: World, p: Project) { exists q <- w.projects :: q.id != p.id && q.org == p.org }

  ghost predicate CanDelete(w: World, me: User, x: Option<ProjectId>) {
    exists p :: ManagesFrom(w, me, x, p) && HasTwin(w, p)
  }

  lemma DeleteWorkspaceExactly(w: World, me: User, x: Option<ProjectId>)
    requires Sound(w)
    ensures var r := DeleteWorkspace(w, me, x);
            && (r.Ok? <==> CanDelete(w, me, x))
            && (r.Ok? ==> forall p :: ManagesFrom(w, me, x, p) ==> WithoutOne(w, r.value, p.id))
            && (r == Err(Refused(403)) <==> Forbidden(w, me, x))
            && (r.Err? ==> r.error in {Refused(403), Refused(409)})
  {
    ManagesExactly(w, me, x);
    if SelectMembership(w, me, x).Ok? { OneGone(w, SelectMembership(w, me, x).value.project); }
    hide SelectMembership, Sound, ActsFrom, Manages, WithoutWorkspace, WithoutOne;
  }

  /** The workspace and the invitations that name it are gone, and everything else is there. */
  ghost predicate WithoutOne(w: World, w': World, id: ProjectId) {
    && (forall q :: q in w'.projects <==> q in w.projects && q.id != id)
    && (forall t :: Find(w'.invites, t) == if t in w.invites && w.invites[t].legacy == Some(id) then None else Find(w.invites, t))
    && w'.users == w.users && w'.orgs == w.orgs && w'.members == w.members
  }

  lemma OneGone(w: World, id: ProjectId)
    ensures WithoutOne(w, WithoutWorkspace(w, id), id)
  {
    WithoutIdHolds(w.projects, id);
  }

  // ---------------------------------------------------------------- what comes from outside

  lemma OthersExactly(w: World, me: User, password: string, now: Time, project: ProjectId, o: OrgId, plan: string)
    ensures var r := SetPassword(w, me, password);
            && (r.Ok? <==> me in w.users) && (r.Err? ==> r.error == Refused(404))
            && (r.Ok? ==> Only(w.users, r.value.users, me, Some(password)) && r.value == w.(users := r.value.users))
    ensures var r := SeedProject(w, now, project);
            && (r.Ok? <==> Unused(w, project)) && (r.Err? ==> r.error == Refused(500))
            && (r.Ok? ==> OneMore(w.projects, r.value.projects, Project(project, now, None)) && r.value == w.(projects := r.value.projects))
    ensures var r := SetPlan(w, o, plan);
            && (r.Ok? <==> o in w.orgs) && (r.Err? ==> r.error == Refused(404))
            && (r.Ok? ==> Only(w.orgs, r.value.orgs, o, Some(Org(w.orgs[o].kind, plan))) && r.value == w.(orgs := r.value.orgs))
  {
    PlacedHolds(w.projects, Project(project, now, None));
  }
}
