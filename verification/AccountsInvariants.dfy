/** What every run of the local operations keeps: sound tables, an owner and a workspace in every
    organization, personal accounts that stay one person's, and seat and workspace caps. */
module AccountsInvariants {
  import opened Prelude
  import opened AccountsSpec
  import opened AccountsAccess

  // ---------------------------------------------------------------- sound tables

  predicate MemberSound(w: World, k: (OrgId, User)) {
    k in w.members ==> k.0 in w.orgs && k.1 in w.users
  }

  /** An invitation leads into an organization; if it names a project from before, that project is there and
      belongs to this organization. */
  ghost predicate InviteSound(w: World, t: Token) {
    t in w.invites ==>
      && w.invites[t].org in w.orgs
      && (w.invites[t].legacy.Some? ==> OwnsLegacy(w.projects, w.invites[t]))
  }

  predicate OwnsLegacy(ps: seq<Project>, v: Invite) {
    exists p <- ps :: Some(p.id) == v.legacy && p.org == Some(v.org)
  }

  /** Every organization keeps an owner and a workspace. */
  ghost predicate OrgSound(w: World, o: OrgId) {
    o in w.orgs ==> HasOrg(w.projects, o) && exists u :: (o, u) in w.members && w.members[(o, u)] == "OWNER"
  }

  ghost predicate ProjectsSound(w: World) {
    Ordered(w.projects) && forall p <- w.projects :: p.org.Some? ==> p.org.value in w.orgs
  }

  /** A personal account: one OWNER, nobody else, and no invitation outstanding. */
  ghost predicate Solo(w: World, o: OrgId) {
    (exists u :: (o, u) in w.members && w.members[(o, u)] == "OWNER" && forall v :: (o, v) in w.members ==> v == u)
    && Pending(w, o) == {}
  }

  ghost predicate Sound(w: World) {
    && (forall k :: MemberSound(w, k))
    && (forall t :: InviteSound(w, t))
    && (forall o :: OrgSound(w, o))
    && ProjectsSound(w)
    && (w.users == map[] ==> w.orgs == map[])
    && (forall o :: o in w.orgs && w.orgs[o].kind == Personal ==> Solo(w, o))
  }

  /** Every workspace of an organization is still there. */
  ghost predicate Keeps(ps: seq<Project>, ps': seq<Project>) {
    forall p <- ps :: p.org.Some? ==> p in ps'
  }

  lemma KeptRows(ps: seq<Project>, ps': seq<Project>)
    requires Keeps(ps, ps')
    ensures forall o :: HasOrg(ps, o) ==> HasOrg(ps', o)
    ensures forall v: Invite :: OwnsLegacy(ps, v) ==> OwnsLegacy(ps', v)
  {
    forall o: OrgId | HasOrg(ps, o) ensures HasOrg(ps', o) {
      var p :| p in ps && p.org == Some(o);
      assert p in ps';
    }
    forall v: Invite | OwnsLegacy(ps, v) ensures OwnsLegacy(ps', v) {
      var p :| p in ps && Some(p.id) == v.legacy && p.org == Some(v.org);
      assert p in ps';
    }
  }

  // ---------------------------------------------------------------- each operation

  /** A new organization with its owner and first workspace. */
  lemma Founded(w: World, w': World, org: OrgId, kind: Kind, u: User)
    requires Sound(w) && org !in w.orgs
    requires w'.orgs == w.orgs[org := Org(kind, "free")] && w'.members == w.members[(org, u) := "OWNER"]
    requires w'.invites == w.invites && u in w'.users && forall v :: v in w.users ==> v in w'.users
    requires ProjectsSound(w') && HasOrg(w'.projects, org) && Keeps(w.projects, w'.projects)
    ensures Sound(w')
  {
    KeptRows(w.projects, w'.projects);
    forall k ensures MemberSound(w', k) { assert MemberSound(w, k); }
    forall t ensures InviteSound(w', t) { assert InviteSound(w, t); }
    forall o ensures OrgSound(w', o) { FoundedOrg(w, w', org, u, o); }
    forall o | o in w'.orgs && w'.orgs[o].kind == Personal ensures Solo(w', o) { FoundedSolo(w, w', org, u, o); }
  }

  lemma FoundedOrg(w: World, w': World, org: OrgId, u: User, o: OrgId)
    requires OrgSound(w, o) && MemberSound(w, (org, u)) && org !in w.orgs
    requires o in w'.orgs ==> o in w.orgs || o == org
    requires w'.members == w.members[(org, u) := "OWNER"]
    requires HasOrg(w'.projects, org) && (HasOrg(w.projects, o) ==> HasOrg(w'.projects, o))
    ensures OrgSound(w', o)
  {
    if o in w'.orgs {
      if o == org {
        assert (o, u) in w'.members && w'.members[(o, u)] == "OWNER";
      } else {
        var v :| (o, v) in w.members && w.members[(o, v)] == "OWNER";
        assert (o, v) in w'.members && w'.members[(o, v)] == "OWNER";
      }
    }
  }

  lemma FoundedSolo(w: World, w': World, org: OrgId, u: User, o: OrgId)
    requires Sound(w) && org !in w.orgs && o in w'.orgs && w'.orgs[o].kind == Personal
    requires o != org ==> o in w.orgs && w.orgs[o] == w'.orgs[o]
    requires w'.members == w.members[(org, u) := "OWNER"] && w'.invites == w.invites
    ensures Solo(w', o)
  {
    if o == org {
      forall v | (o, v) in w'.members ensures v == u { assert MemberSound(w, (o, v)); }
      forall t ensures t !in Pending(w', o) { assert InviteSound(w, t); }
      assert (o, u) in w'.members && w'.members[(o, u)] == "OWNER";
    } else {
      assert Pending(w', o) == Pending(w, o);
      var v :| (o, v) in w.members && w.members[(o, v)] == "OWNER" && forall x :: (o, x) in w.members ==> x == v;
      assert (o, v) in w'.members && w'.members[(o, v)] == "OWNER";
    }
  }

  lemma RegisterSound(cfg: Config, w: World, email: User, password: string, now: Time, org: OrgId, project: ProjectId)
    requires Sound(w) && Register(cfg, w, email, password, now, org, project).Ok?
    ensures Sound(Register(cfg, w, email, password, now, org, project).value)
  {
    var w' := Register(cfg, w, email, password, now, org, project).value;
    if w.users == map[] {
      BootstrapProjects(w, w'.projects, org, Project(project, now, Some(org)));
      Founded(w, w', org, Company, email);
    } else {
      AddedProject(w, w', Project(project, now, Some(org)));
      Founded(w, w', org, Personal, email);
    }
  }

  /** Before the first user there are no organizations, so the adopted project had none. */
  lemma BootstrapProjects(w: World, ps: seq<Project>, org: OrgId, p: Project)
    requires ProjectsSound(w) && w.orgs == map[] && p.org == Some(org)
    requires ps == if w.projects == [] then [p] else w.projects[0 := w.projects[0].(org := Some(org))]
    ensures Ordered(ps) && HasOrg(ps, org) && forall q <- ps :: q.org.Some? ==> q.org.value == org
    ensures Keeps(w.projects, ps)
  {
    assert ps[0] in ps;
    forall q <- ps | q != ps[0] ensures q.org.None? {
      assert q in w.projects;
    }
  }

  lemma AddedProject(w: World, w': World, p: Project)
    requires ProjectsSound(w) && !HasId(w.projects, p.id) && w'.projects == Placed(w.projects, p)
    requires forall o :: o in w.orgs ==> o in w'.orgs
    requires p.org.Some? ==> p.org.value in w'.orgs
    ensures ProjectsSound(w')
    ensures Keeps(w.projects, w'.projects)
    ensures p.org.Some? ==> HasOrg(w'.projects, p.org.value)
  {
    PlacedHolds(w.projects, p);
    PlacedOrdered(w.projects, p);
  }

  lemma NewOrgSound(cfg: Config, w: World, me: User, x: Option<ProjectId>, now: Time, org: OrgId, project: ProjectId)
    requires Sound(w) && NewOrg(cfg, w, me, x, now, org, project).Ok?
    ensures Sound(NewOrg(cfg, w, me, x, now, org, project).value)
  {
    var w' := NewOrg(cfg, w, me, x, now, org, project).value;
    AnswersAreMembers(w, me, x);
    assert MemberSound(w, (SelectMembership(w, me, x).value.org, me));
    AddedProject(w, w', Project(project, now, Some(org)));
    Founded(w, w', org, Company, me);
  }

  /** Only the project table grew. */
  lemma ProjectAddedSound(w: World, w': World, p: Project)
    requires Sound(w) && !HasId(w.projects, p.id) && w' == w.(projects := Placed(w.projects, p))
    requires p.org.Some? ==> p.org.value in w.orgs
    ensures Sound(w')
  {
    AddedProject(w, w', p);
    KeptRows(w.projects, w'.projects);
    forall k ensures MemberSound(w', k) { assert MemberSound(w, k); }
    forall t ensures InviteSound(w', t) { assert InviteSound(w, t); }
    forall o ensures OrgSound(w', o) { assert OrgSound(w, o); }
    forall o | o in w'.orgs && w'.orgs[o].kind == Personal ensures Solo(w', o) { assert Pending(w', o) == Pending(w, o); }
  }

  /** Only invitations changed, and no personal account gained a pending one. */
  lemma InvitesChangedSound(w: World, w': World)
    requires Sound(w) && w' == w.(invites := w'.invites)
    requires forall t :: InviteSound(w', t)
    requires forall t :: t in w'.invites && w'.invites[t].status == PENDING ==>
               (t in w.invites && w.invites[t] == w'.invites[t]) || (w'.invites[t].org in w.orgs && w.orgs[w'.invites[t].org].kind == Company)
    ensures Sound(w')
  {
    forall k ensures MemberSound(w', k) { assert MemberSound(w, k); }
    forall o ensures OrgSound(w', o) { assert OrgSound(w, o); }
    forall o | o in w'.orgs && w'.orgs[o].kind == Personal ensures Solo(w', o) {
      assert Solo(w, o);
      forall t ensures t !in Pending(w', o) { assert t !in Pending(w, o); }
    }
  }

  lemma InviteKeepsSound(cfg: Config, w: World, me: User, x: Option<ProjectId>, email: User, role: Role, token: Token, expires: Time)
    requires Sound(w) && CreateInvitation(cfg, w, me, x, email, role, token, expires).Ok?
    ensures Sound(CreateInvitation(cfg, w, me, x, email, role, token, expires).value)
  {
    var w' := CreateInvitation(cfg, w, me, x, email, role, token, expires).value;
    forall t ensures InviteSound(w', t) { assert InviteSound(w, t); }
    InvitesChangedSound(w, w');
  }

  lemma RevokeSound(w: World, me: User, x: Option<ProjectId>, token: Token)
    requires Sound(w) && Revoke(w, me, x, token).Ok?
    ensures Sound(Revoke(w, me, x, token).value)
  {
    var w' := Revoke(w, me, x, token).value;
    forall t ensures InviteSound(w', t) { assert InviteSound(w, t); }
    InvitesChangedSound(w, w');
  }

  /** An invitation that is still pending never leads into a personal account. */
  lemma PendingMeansCompany(w: World, t: Token)
    requires Sound(w) && t in w.invites && w.invites[t].status == PENDING
    ensures w.invites[t].org in w.orgs && w.orgs[w.invites[t].org].kind == Company
  {
    var o := w.invites[t].org;
    assert InviteSound(w, t);
    assert t in Pending(w, o);
    assert w.orgs[o].kind == Personal ==> Solo(w, o);
  }

  /** Accepting does not look at the organization's kind; it is safe because of the invariant. */
  lemma AcceptSound(w: World, token: Token, password: string, now: Time)
    requires Sound(w) && Accept(w, token, password, now).Ok?
    ensures Sound(Accept(w, token, password, now).value)
  {
    var w' := Accept(w, token, password, now).value;
    var v := w.invites[token];
    PendingMeansCompany(w, token);
    forall k ensures MemberSound(w', k) { assert MemberSound(w, k); }
    forall t ensures InviteSound(w', t) { assert InviteSound(w, t); }
    forall o ensures OrgSound(w', o) {
      assert OrgSound(w, o);
      if o in w.orgs {
        var u :| (o, u) in w.members && w.members[(o, u)] == "OWNER";
        assert (o, u) in w'.members && w'.members[(o, u)] == "OWNER";
      }
    }
    forall o | o in w'.orgs && w'.orgs[o].kind == Personal ensures Solo(w', o) {
      assert Solo(w, o) && o != v.org;
      SoloElsewhere(w, w', o);
    }
  }

  /** A personal account whose own rows are untouched. */
  lemma SoloElsewhere(w: World, w': World, o: OrgId)
    requires Solo(w, o)
    requires forall u :: Find(w'.members, (o, u)) == Find(w.members, (o, u))
    requires forall t :: t in Pending(w', o) ==> t in Pending(w, o)
    ensures Solo(w', o)
  {
    var u :| (o, u) in w.members && w.members[(o, u)] == "OWNER" && forall v :: (o, v) in w.members ==> v == u;
    assert Find(w'.members, (o, u)) == Find(w.members, (o, u));
    assert (o, u) in w'.members && w'.members[(o, u)] == "OWNER";
    forall v | (o, v) in w'.members ensures v == u {
      assert Find(w'.members, (o, v)) == Find(w.members, (o, v));
    }
  }

  lemma OtherOwner(w: World, o: OrgId, target: User)
    requires (o, target) in w.members && (w.members[(o, target)] == "OWNER" ==> |Owners(w, o)| != 1)
    requires exists u :: (o, u) in w.members && w.members[(o, u)] == "OWNER"
    ensures exists u :: u != target && (o, u) in w.members && w.members[(o, u)] == "OWNER"
  {
    var u :| (o, u) in w.members && w.members[(o, u)] == "OWNER";
    if u == target {
      assert (o, target) in Owners(w, o) && Owners(w, o) != {(o, target)};
      var k :| k in Owners(w, o) && k != (o, target);
      assert k == (o, k.1);
    }
  }

  lemma RemoveSound(w: World, me: User, x: Option<ProjectId>, target: User)
    requires Sound(w) && RemoveMember(w, me, x, target).Ok?
    ensures Sound(RemoveMember(w, me, x, target).value)
  {
    var w' := RemoveMember(w, me, x, target).value;
    AnswersAreMembers(w, me, x);
    var org := SelectMembership(w, me, x).value.org;
    assert OrgSound(w, org);
    OtherOwner(w, org, target);
    forall k ensures MemberSound(w', k) { assert MemberSound(w, k); }
    forall t ensures InviteSound(w', t) { assert InviteSound(w, t); }
    forall o ensures OrgSound(w', o) {
      assert OrgSound(w, o);
      if o in w.orgs {
        var u :| (o, u) != (org, target) && (o, u) in w.members && w.members[(o, u)] == "OWNER";
        assert (o, u) in w'.members && w'.members[(o, u)] == "OWNER";
      }
    }
    forall o | o in w'.orgs && w'.orgs[o].kind == Personal ensures Solo(w', o) {
      assert Solo(w, o);
      assert o != org;
      SoloElsewhere(w, w', o);
    }
  }

  lemma DeleteSound(w: World, me: User, x: Option<ProjectId>)
    requires Sound(w) && DeleteOrg(w, me, x).Ok?
    ensures Sound(DeleteOrg(w, me, x).value)
  {
    var w' := DeleteOrg(w, me, x).value;
    AnswersAreMembers(w, me, x);
    var org := SelectMembership(w, me, x).value.org;
    OutsideHolds(w.projects, org);
    OutsideOrdered(w.projects, org);
    forall k ensures MemberSound(w', k) { assert MemberSound(w, k); }
    forall t ensures InviteSound(w', t) { assert InviteSound(w, t); }
    forall o ensures OrgSound(w', o) {
      assert OrgSound(w, o);
      if o in w'.orgs {
        var u :| (o, u) in w.members && w.members[(o, u)] == "OWNER";
        assert (o, u) in w'.members && w'.members[(o, u)] == "OWNER";
        var p :| p in w.projects && p.org == Some(o);
        assert p in w'.projects;
      }
    }
    forall o | o in w'.orgs && w'.orgs[o].kind == Personal ensures Solo(w', o) {
      assert Solo(w, o);
      SoloElsewhere(w, w', o);
    }
    assert MemberSound(w, (org, me));
  }

  /** Deleting a workspace leaves its organization a sibling, and takes exactly the invitations that named it
      from before. */
  lemma DeleteWorkspaceSound(w: World, me: User, x: Option<ProjectId>)
    requires Sound(w) && DeleteWorkspace(w, me, x).Ok?
    ensures Sound(DeleteWorkspace(w, me, x).value)
  {
    var w' := DeleteWorkspace(w, me, x).value;
    var who := SelectMembership(w, me, x).value;
    WithoutIdHolds(w.projects, who.project);
    WithoutIdOrdered(w.projects, who.project);
    AnswersAreRows(w, me, x);
    var p :| Answers(w, me, p, who);
    forall k ensures MemberSound(w', k) { assert MemberSound(w, k); }
    forall t ensures InviteSound(w', t) {
      assert InviteSound(w, t);
      if t in w'.invites && w.invites[t].legacy.Some? {
        var q :| q in w.projects && Some(q.id) == w.invites[t].legacy && q.org == Some(w.invites[t].org);
        assert q in w'.projects;
      }
    }
    forall o ensures OrgSound(w', o) {
      assert OrgSound(w, o);
      if o in w.orgs { SiblingStays(w, who, p, o); }
    }
    forall o | o in w'.orgs && w'.orgs[o].kind == Personal ensures Solo(w', o) {
      assert Solo(w, o);
      SoloElsewhere(w, w', o);
    }
  }

  lemma SiblingStays(w: World, who: Principal, p: Project, o: OrgId)
    requires ProjectsSound(w) && p in w.projects && p.id == who.project && p.org == Some(who.org)
    requires HasSibling(w.projects, who) && HasOrg(w.projects, o)
    ensures HasOrg(WithoutId(w.projects, who.project), o)
  {
    WithoutIdHolds(w.projects, who.project);
    var q :| q in w.projects && q.org == Some(o) && (o == who.org ==> q.id != who.project);
    if q.id == who.project { IdsUnique(w.projects, p, q); }
    assert q in WithoutId(w.projects, who.project);
  }

  lemma SetPasswordSound(w: World, me: User, password: string)
    requires Sound(w) && me in w.users
    ensures Sound(SetPassword(w, me, password).value)
  {
    var w' := SetPassword(w, me, password).value;
    forall k ensures MemberSound(w', k) { assert MemberSound(w, k); }
    forall t ensures InviteSound(w', t) { assert InviteSound(w, t); }
    forall o ensures OrgSound(w', o) { assert OrgSound(w, o); }
    forall o | o in w'.orgs && w'.orgs[o].kind == Personal ensures Solo(w', o) {
      assert Solo(w, o);
      SoloElsewhere(w, w', o);
    }
  }

  lemma SetPlanSound(w: World, o: OrgId, plan: string)
    requires Sound(w) && o in w.orgs
    ensures Sound(SetPlan(w, o, plan).value)
  {
    var w' := SetPlan(w, o, plan).value;
    forall k ensures MemberSound(w', k) { assert MemberSound(w, k); }
    forall t ensures InviteSound(w', t) { assert InviteSound(w, t); }
    forall o ensures OrgSound(w', o) { assert OrgSound(w, o); }
    forall o | o in w'.orgs && w'.orgs[o].kind == Personal ensures Solo(w', o) {
      assert Solo(w, o);
      SoloElsewhere(w, w', o);
    }
  }

  /** Every operation keeps the tables sound. */
  lemma NextSound(cfg: Config, w: World, op: Op)
    requires Sound(w)
    ensures Sound(Next(cfg, w, op))
  {
    hide Sound;
    if Apply(cfg, w, op).Ok? {
      match op
      case OpRegister(email, password, now, org, project) => RegisterSound(cfg, w, email, password, now, org, project);
      case OpNewOrg(me, x, now, org, project) => NewOrgSound(cfg, w, me, x, now, org, project);
      case OpNewWorkspace(me, x, now, project) =>
        ProjectAddedSound(w, Next(cfg, w, op), Project(project, now, Some(SelectMembership(w, me, x).value.org)));
      case OpInvite(me, x, email, role, token, expires) => InviteKeepsSound(cfg, w, me, x, email, role, token, expires);
      case OpAccept(token, password, now) => AcceptSound(w, token, password, now);
      case OpRevoke(me, x, token) => RevokeSound(w, me, x, token);
      case OpRemove(me, x, target) => RemoveSound(w, me, x, target);
      case OpDelete(me, x) => DeleteSound(w, me, x);
      case OpDeleteWorkspace(me, x) => DeleteWorkspaceSound(w, me, x);
      case OpSetPassword(me, password) => SetPasswordSound(w, me, password);
      case OpSeed(now, project) => ProjectAddedSound(w, Next(cfg, w, op), Project(project, now, None));
      case OpSetPlan(o, plan) => SetPlanSound(w, o, plan);
    }
  }

  lemma EmptySound()
    ensures Sound(EMPTY)
  {
  }

  /** Every run from sound tables, and so every run from empty ones, stays sound. */
  lemma {:induction false} RunSound(cfg: Config, w: World, ops: seq<Op>)
    requires Sound(w)
    ensures Sound(Run(cfg, w, ops))
  {
    if ops != [] {
      RunSound(cfg, w, ops[..|ops| - 1]);
      NextSound(cfg, Run(cfg, w, ops[..|ops| - 1]), ops[|ops| - 1]);
    }
  }
}
