/** Tenant isolation as a property of the whole history: who belongs to an organization, and so who reaches
    its workspaces, is settled by who founded it and who accepted an invitation to it; and a request made
    from inside one organization leaves every other organization's rows alone. */
module AccountsTenancy {
  import opened Prelude
  import opened AccountsSpec
  import opened AccountsAccess
  import opened AccountsInvariants

  // ---------------------------------------------------------------- the history of a run

  datatype Event =
    | Founded(o: OrgId, u: User)
    | Invited(o: OrgId, u: User, role: Role)
    | Accepted(o: OrgId, u: User, role: Role)
    | Left(o: OrgId, u: User)
    | Dissolved(o: OrgId)

  /** What a request that went through did to memberships and invitations. */
  function EventOf(w: World, op: Op): Option<Event> {
    match op
    case OpRegister(email, _, _, org, _) => Some(Founded(org, email))
    case OpNewOrg(me, _, _, org, _) => Some(Founded(org, me))
    case OpInvite(me, x, email, role, _, _) =>
      if SelectMembership(w, me, x).Ok? then Some(Invited(SelectMembership(w, me, x).value.org, email, role)) else None
    case OpAccept(token, _, _) =>
      if token in w.invites then Some(Accepted(w.invites[token].org, w.invites[token].email, w.invites[token].role)) else None
    case OpRemove(me, x, target) =>
      if SelectMembership(w, me, x).Ok? then Some(Left(SelectMembership(w, me, x).value.org, target)) else None
    case OpDelete(me, x) =>
      if SelectMembership(w, me, x).Ok? then Some(Dissolved(SelectMembership(w, me, x).value.org)) else None
    case _ => None
  }

  function Logged(cfg: Config, w: World, op: Op, log: seq<Event>): seq<Event> {
    if Apply(cfg, w, op).Ok? && EventOf(w, op).Some? then log + [EventOf(w, op).value] else log
  }

  function History(cfg: Config, ops: seq<Op>): seq<Event> {
    if ops == [] then []
    else
      var before := ops[..|ops| - 1];
      Logged(cfg, Run(cfg, EMPTY, before), ops[|ops| - 1], History(cfg, before))
  }

  /** How one event changes the standing of a user in an organization: founders are owners, the first
      acceptance gives the invited role, and a later one changes nothing. */
  function After(e: Event, o: OrgId, u: User, before: Option<Role>): Option<Role> {
    match e
    case Founded(o', u') => if o' == o && u' == u then Some("OWNER") else before
    case Accepted(o', u', role) => if o' == o && u' == u && before.None? then Some(role) else before
    case Left(o', u') => if o' == o && u' == u then None else before
    case Dissolved(o') => if o' == o then None else before
    case Invited(_, _, _) => before
  }

  /** The standing of a user in an organization according to the history alone. */
  function Standing(log: seq<Event>, o: OrgId, u: User): Option<Role> {
    if log == [] then None else After(log[|log| - 1], o, u, Standing(log[..|log| - 1], o, u))
  }

  lemma StandingAfter(log: seq<Event>, e: Event, o: OrgId, u: User)
    ensures Standing(log + [e], o, u) == After(e, o, u, Standing(log, o, u))
  {
    assert (log + [e])[..|log|] == log;
  }

  lemma MembersAfter(cfg: Config, w: World, op: Op, o: OrgId, u: User)
    requires Apply(cfg, w, op).Ok?
    ensures Find(Next(cfg, w, op).members, (o, u)) ==
              if EventOf(w, op).Some? then After(EventOf(w, op).value, o, u, Find(w.members, (o, u))) else Find(w.members, (o, u))
  {
    hide SeatRefused, WorkspaceLimit, SelectMembership, HasOrg, HasId, Survivor, CompaniesJoined, WorkspaceCount, Owners, Placed, Outside;
  }

  /** In every run, membership and role are exactly what the history says. */
  lemma {:induction false} MembershipIsHistory(cfg: Config, ops: seq<Op>, o: OrgId, u: User)
    ensures Find(Run(cfg, EMPTY, ops).members, (o, u)) == Standing(History(cfg, ops), o, u)
  {
    if ops != [] {
      var before, op := ops[..|ops| - 1], ops[|ops| - 1];
      MembershipIsHistory(cfg, before, o, u);
      var w := Run(cfg, EMPTY, before);
      if Apply(cfg, w, op).Ok? {
        MembersAfter(cfg, w, op, o, u);
        if EventOf(w, op).Some? { StandingAfter(History(cfg, before), EventOf(w, op).value, o, u); }
      }
      hide Apply, EventOf, Find, After;
    }
  }

  /** So the access check grants a named workspace exactly to those the history lets into its organization,
      with the role it gave them. */
  lemma GrantedByHistory(cfg: Config, ops: seq<Op>, u: User, x: ProjectId)
    ensures var answer := SelectMembership(Run(cfg, EMPTY, ops), u, Some(x));
            && (answer.Ok? <==>
                  exists p <- Run(cfg, EMPTY, ops).projects ::
                    p.id == x && p.org.Some? && Standing(History(cfg, ops), p.org.value, u).Some?)
            && (answer.Ok? ==> Standing(History(cfg, ops), answer.value.org, u) == Some(answer.value.role))
  {
    var w := Run(cfg, EMPTY, ops);
    NamedExactly(w, u, x);
    if SelectMembership(w, u, Some(x)).Ok? {
      AnswersAreMembers(w, u, Some(x));
      MembershipIsHistory(cfg, ops, SelectMembership(w, u, Some(x)).value.org, u);
    }
    hide Run, History, SelectMembership, Standing;
    if p :| Reachable(w, u, p) && p.id == x {
      MembershipIsHistory(cfg, ops, p.org.value, u);
    }
    if p :| p in w.projects && p.id == x && p.org.Some? && Standing(History(cfg, ops), p.org.value, u).Some? {
      MembershipIsHistory(cfg, ops, p.org.value, u);
      assert Reachable(w, u, p);
    }
  }

  /** Whoever belongs anywhere can sign in, and nobody else: every organization has a workspace. */
  lemma SignInByHistory(cfg: Config, ops: seq<Op>, u: User)
    ensures SelectMembership(Run(cfg, EMPTY, ops), u, None).Ok? <==> exists o: OrgId :: Standing(History(cfg, ops), o, u).Some?
  {
    var w := Run(cfg, EMPTY, ops);
    EmptySound();
    RunSound(cfg, EMPTY, ops);
    OldestExactly(w, u);
    hide Run, History, SelectMembership, Standing;
    if p :| Reachable(w, u, p) {
      MembershipIsHistory(cfg, ops, p.org.value, u);
    }
    if o: OrgId :| Standing(History(cfg, ops), o, u).Some? {
      MembershipIsHistory(cfg, ops, o, u);
      assert MemberSound(w, (o, u)) && OrgSound(w, o);
      var p :| p in w.projects && p.org == Some(o);
      assert Reachable(w, u, p);
    }
  }

  // ---------------------------------------------------------------- nobody joins uninvited

  /** Every invitation on file was logged when it was made. */
  ghost predicate InvitesLogged(w: World, log: seq<Event>) {
    forall t :: t in w.invites ==> Invited(w.invites[t].org, w.invites[t].email, w.invites[t].role) in log
  }

  lemma InvitesStayLogged(cfg: Config, w: World, op: Op, log: seq<Event>)
    requires InvitesLogged(w, log)
    ensures InvitesLogged(Next(cfg, w, op), Logged(cfg, w, op, log))
  {
    hide SeatRefused, WorkspaceLimit, SelectMembership, HasOrg, HasId, Survivor, CompaniesJoined, WorkspaceCount, Owners, Placed, Outside;
    var w' := Next(cfg, w, op);
    forall t | t in w'.invites ensures Invited(w'.invites[t].org, w'.invites[t].email, w'.invites[t].role) in Logged(cfg, w, op, log) {
      assert t in w.invites || op.OpInvite?;
    }
  }

  lemma {:induction false} RunInvitesLogged(cfg: Config, ops: seq<Op>)
    ensures InvitesLogged(Run(cfg, EMPTY, ops), History(cfg, ops))
  {
    if ops != [] {
      RunInvitesLogged(cfg, ops[..|ops| - 1]);
      InvitesStayLogged(cfg, Run(cfg, EMPTY, ops[..|ops| - 1]), ops[|ops| - 1], History(cfg, ops[..|ops| - 1]));
    }
  }

  /** Every acceptance in the history follows an invitation of that address to that organization in that role. */
  lemma {:induction false} AcceptedWereInvited(cfg: Config, ops: seq<Op>, i: nat)
    requires i < |History(cfg, ops)| && History(cfg, ops)[i].Accepted?
    ensures var e := History(cfg, ops)[i]; Invited(e.o, e.u, e.role) in History(cfg, ops)[..i]
  {
    var before, op := ops[..|ops| - 1], ops[|ops| - 1];
    var log := History(cfg, before);
    if i < |log| {
      AcceptedWereInvited(cfg, before, i);
      assert History(cfg, ops)[..i] == log[..i];
    } else {
      RunInvitesLogged(cfg, before);
      assert History(cfg, ops)[..i] == log;
    }
  }

  /** An invitation goes through only for an owner or admin of the organization it leads into. */
  lemma InvitersManage(cfg: Config, w: World, op: Op)
    requires op.OpInvite? && Apply(cfg, w, op).Ok?
    ensures exists o: OrgId ::
              && EventOf(w, op) == Some(Invited(o, op.email, op.role))
              && (o, op.me) in w.members && w.members[(o, op.me)] in {"OWNER", "ADMIN"}
  {
    AnswersAreMembers(w, op.me, op.x);
    var o := SelectMembership(w, op.me, op.x).value.org;
    assert EventOf(w, op) == Some(Invited(o, op.email, op.role));
  }

  // ---------------------------------------------------------------- requests are confined

  /** The organization a request acts on: the caller's active one, the invitation's, or the new one. */
  function Target(w: World, op: Op): Option<OrgId> {
    match op
    case OpRegister(_, _, _, org, _) => Some(org)
    case OpNewOrg(_, _, _, org, _) => Some(org)
    case OpNewWorkspace(me, x, _, _) => ActiveOrg(w, me, x)
    case OpInvite(me, x, _, _, _, _) => ActiveOrg(w, me, x)
    case OpAccept(token, _, _) => if token in w.invites then Some(w.invites[token].org) else None
    case OpRevoke(me, x, _) => ActiveOrg(w, me, x)
    case OpRemove(me, x, _) => ActiveOrg(w, me, x)
    case OpDelete(me, x) => ActiveOrg(w, me, x)
    case OpDeleteWorkspace(me, x) => ActiveOrg(w, me, x)
    case OpSetPassword(_, _) => None
    case OpSeed(_, _) => None
    case OpSetPlan(o, _) => Some(o)
  }

  function ActiveOrg(w: World, me: User, x: Option<ProjectId>): Option<OrgId> {
    if SelectMembership(w, me, x).Ok? then Some(SelectMembership(w, me, x).value.org) else None
  }

  /** Everything an organization owns is as it was. */
  ghost predicate Untouched(w: World, w': World, o: OrgId) {
    && Find(w'.orgs, o) == Find(w.orgs, o)
    && (forall u :: Find(w'.members, (o, u)) == Find(w.members, (o, u)))
    && (forall t :: t in w.invites && w.invites[t].org == o ==> Find(w'.invites, t) == Find(w.invites, t))
    && (forall t :: t in w'.invites && w'.invites[t].org == o ==> t in w.invites)
    && (forall p <- w.projects :: p.org == Some(o) ==> p in w'.projects)
    && (forall p <- w'.projects :: p.org == Some(o) ==> p in w.projects)
  }

  /** Deleting a workspace removes the caller's active one and no other row. */
  lemma DeletedOnly(w: World, me: User, x: Option<ProjectId>, p: Project)
    requires Sound(w) && DeleteWorkspace(w, me, x).Ok?
    ensures var who := SelectMembership(w, me, x).value;
            && (p in DeleteWorkspace(w, me, x).value.projects <==> p in w.projects && p.id != who.project)
            && (p in w.projects && p.id == who.project ==> p.org == Some(who.org))
  {
    var who := SelectMembership(w, me, x).value;
    WithoutIdHolds(w.projects, who.project);
    AnswersAreRows(w, me, x);
    var q :| Answers(w, me, q, who);
    if p in w.projects && p != q { IdsUnique(w.projects, p, q); }
  }

  lemma ProjectsUntouched(cfg: Config, w: World, op: Op, o: OrgId, p: Project)
    requires Sound(w) && Apply(cfg, w, op).Ok? && Target(w, op) != Some(o) && p.org == Some(o)
    ensures p in Next(cfg, w, op).projects <==> p in w.projects
  {
    hide SeatRefused, WorkspaceLimit, SelectMembership, HasOrg, HasId, Survivor, CompaniesJoined, WorkspaceCount, Owners, Placed, Outside;
    match op
    case OpRegister(email, password, now, org, project) =>
      if w.users == map[] {
        assert p !in w.projects;
        var w' := Next(cfg, w, op);
        BootstrapProjects(w, w'.projects, org, Project(project, now, Some(org)));
      } else {
        PlacedHolds(w.projects, Project(project, now, Some(org)));
      }
    case OpNewOrg(me, x, now, org, project) => PlacedHolds(w.projects, Project(project, now, Some(org)));
    case OpNewWorkspace(me, x, now, project) =>
      PlacedHolds(w.projects, Project(project, now, Some(SelectMembership(w, me, x).value.org)));
    case OpDelete(me, x) => OutsideHolds(w.projects, SelectMembership(w, me, x).value.org);
    case OpDeleteWorkspace(me, x) => DeletedOnly(w, me, x, p);
    case OpSeed(now, project) => PlacedHolds(w.projects, Project(project, now, None));
    case _ =>
  }

  lemma MembersUntouched(cfg: Config, w: World, op: Op, o: OrgId)
    requires Apply(cfg, w, op).Ok? && Target(w, op) != Some(o)
    ensures var w' := Next(cfg, w, op);
            Find(w'.orgs, o) == Find(w.orgs, o) && forall u :: Find(w'.members, (o, u)) == Find(w.members, (o, u))
  {
    hide SeatRefused, WorkspaceLimit, SelectMembership, HasOrg, HasId, Survivor, CompaniesJoined, WorkspaceCount, Owners, Placed, Outside;
  }

  lemma InvitesUntouched(cfg: Config, w: World, op: Op, o: OrgId)
    requires Sound(w) && Apply(cfg, w, op).Ok? && Target(w, op) != Some(o)
    ensures var w' := Next(cfg, w, op);
            && (forall t :: t in w.invites && w.invites[t].org == o ==> Find(w'.invites, t) == Find(w.invites, t))
            && (forall t :: t in w'.invites && w'.invites[t].org == o ==> t in w.invites)
  {
    hide Sound;
    if op.OpDeleteWorkspace? {
      InvitesAfterDeletion(w, Next(cfg, w, op), op.me, op.x, o);
    } else {
      hide SeatRefused, WorkspaceLimit, SelectMembership, HasOrg, HasId, Survivor, CompaniesJoined, WorkspaceCount, Owners, Placed, Outside,
           HasSibling, WithoutId;
    }
  }

  lemma InvitesAfterDeletion(w: World, w': World, me: User, x: Option<ProjectId>, o: OrgId)
    requires Sound(w) && DeleteWorkspace(w, me, x) == Ok(w') && o != SelectMembership(w, me, x).value.org
    ensures forall t :: t in w.invites && w.invites[t].org == o ==> Find(w'.invites, t) == Find(w.invites, t)
    ensures forall t :: t in w'.invites && w'.invites[t].org == o ==> t in w.invites
  {
    forall t | t in w.invites && w.invites[t].org == o ensures Find(w'.invites, t) == Find(w.invites, t) {
      assert InviteSound(w, t);
      LegacyElsewhere(w, me, x, w.invites[t]);
    }
  }

  /** An invitation of another organization does not name the deleted workspace. */
  lemma LegacyElsewhere(w: World, me: User, x: Option<ProjectId>, v: Invite)
    requires Sound(w) && DeleteWorkspace(w, me, x).Ok? && v.org != SelectMembership(w, me, x).value.org
    requires v.legacy.Some? ==> OwnsLegacy(w.projects, v)
    ensures v.legacy != Some(SelectMembership(w, me, x).value.project)
  {
    if v.legacy.Some? {
      var p :| p in w.projects && Some(p.id) == v.legacy && p.org == Some(v.org);
      DeletedOnly(w, me, x, p);
    }
  }

  /** No request changes anything of an organization other than the one it acts on. */
  lemma Confined(cfg: Config, w: World, op: Op, o: OrgId)
    requires Sound(w) && (Apply(cfg, w, op).Ok? ==> Target(w, op) != Some(o))
    ensures Untouched(w, Next(cfg, w, op), o)
  {
    if Apply(cfg, w, op).Ok? {
      MembersUntouched(cfg, w, op, o);
      InvitesUntouched(cfg, w, op, o);
      forall p: Project | p.org == Some(o) ensures p in Next(cfg, w, op).projects <==> p in w.projects {
        ProjectsUntouched(cfg, w, op, o, p);
      }
    }
  }

  /** A workspace never changes organization. Afterwards it is the same row; or its organization is gone; or it
      was deleted itself, by a manager working in it, and its organization keeps a sibling. */
  lemma WorkspacesStayPut(cfg: Config, w: World, op: Op, p: Project)
    requires Sound(w) && p in w.projects && p.org.Some?
    ensures var w' := Next(cfg, w, op);
            || p in w'.projects
            || (op.OpDelete? && p.org.value !in w'.orgs && !HasId(w'.projects, p.id))
            || (&& op.OpDeleteWorkspace? && !HasId(w'.projects, p.id) && HasOrg(w'.projects, p.org.value)
                && (exists who :: Answers(w, op.me, p, who) && Manages(who)))
  {
    hide SeatRefused, WorkspaceLimit, SelectMembership, HasOrg, HasId, Survivor, CompaniesJoined, WorkspaceCount, Owners, Placed, Outside,
         Answers, HasSibling, WithoutId, Manages;
    var w' := Next(cfg, w, op);
    if Apply(cfg, w, op).Ok? {
      match op
      case OpRegister(email, password, now, org, project) => PlacedHolds(w.projects, Project(project, now, Some(org)));
      case OpNewOrg(me, x, now, org, project) => PlacedHolds(w.projects, Project(project, now, Some(org)));
      case OpNewWorkspace(me, x, now, project) =>
        PlacedHolds(w.projects, Project(project, now, Some(SelectMembership(w, me, x).value.org)));
      case OpDelete(me, x) => DeletedWith(w, w', me, x, p);
      case OpDeleteWorkspace(me, x) => DeletedItself(w, w', me, x, p);
      case OpSeed(now, project) => PlacedHolds(w.projects, Project(project, now, None));
      case _ =>
    }
  }

  lemma DeletedItself(w: World, w': World, me: User, x: Option<ProjectId>, p: Project)
    requires Sound(w) && p in w.projects && p.org.Some? && DeleteWorkspace(w, me, x) == Ok(w')
    ensures p in w'.projects || (&& !HasId(w'.projects, p.id) && HasOrg(w'.projects, p.org.value)
                                 && exists who :: Answers(w, me, p, who) && Manages(who))
  {
    var who := SelectMembership(w, me, x).value;
    DeletedOnly(w, me, x, p);
    if p !in w'.projects {
      WithoutIdHolds(w.projects, who.project);
      AnswersAreRows(w, me, x);
      var q :| Answers(w, me, q, who);
      if q != p { IdsUnique(w.projects, p, q); }
      SiblingStays(w, who, p, who.org);
      assert Answers(w, me, p, who) && Manages(who);
    }
  }

  /** A project seeded without an organization is adopted by the first registrant or never. */
  lemma SeededStayOut(cfg: Config, w: World, op: Op, p: Project)
    requires Sound(w) && p in w.projects && p.org.None? && w.users != map[]
    ensures p in Next(cfg, w, op).projects
  {
    hide Sound, DeleteWorkspace, SeatRefused, WorkspaceLimit, SelectMembership, HasOrg, HasId, Survivor, CompaniesJoined, WorkspaceCount,
         Owners, Placed, Outside;
    if Apply(cfg, w, op).Ok? {
      match op
      case OpRegister(email, password, now, org, project) => PlacedHolds(w.projects, Project(project, now, Some(org)));
      case OpNewOrg(me, x, now, org, project) => PlacedHolds(w.projects, Project(project, now, Some(org)));
      case OpNewWorkspace(me, x, now, project) =>
        PlacedHolds(w.projects, Project(project, now, Some(SelectMembership(w, me, x).value.org)));
      case OpDelete(me, x) => OutsideHolds(w.projects, SelectMembership(w, me, x).value.org);
      case OpDeleteWorkspace(me, x) => DeletedOnly(w, me, x, p);
      case OpSeed(now, project) => PlacedHolds(w.projects, Project(project, now, None));
      case _ =>
    }
  }

  lemma DeletedWith(w: World, w': World, me: User, x: Option<ProjectId>, p: Project)
    requires Sound(w) && p in w.projects && p.org.Some? && DeleteOrg(w, me, x) == Ok(w')
    ensures p in w'.projects || (p.org.value !in w'.orgs && !HasId(w'.projects, p.id))
  {
    OutsideHolds(w.projects, SelectMembership(w, me, x).value.org);
    if p !in w'.projects {
      forall q <- w'.projects ensures q.id != p.id {
        IdsUnique(w.projects, p, q);
      }
    }
  }

  /** Leaving an organization oneself, or deleting it, never costs the ability to sign in. */
  lemma LeaversCanSignIn(cfg: Config, w: World, op: Op)
    requires Sound(w) && Apply(cfg, w, op).Ok? && ((op.OpRemove? && op.target == op.me) || op.OpDelete?)
    ensures SelectMembership(Next(cfg, w, op), op.me, None).Ok?
  {
    var w' := Next(cfg, w, op);
    var o := SelectMembership(w, op.me, op.x).value.org;
    assert Survivor(w, op.me, o);
    NextSound(cfg, w, op);
    OldestExactly(w', op.me);
    OutsideHolds(w.projects, o);
    hide SelectMembership, Sound, Workspaces, WorkspaceCount, Outside, Owners;
    var p :| p in Workspaces(w.projects, w.members, op.me) && p.org != Some(o);
    WorkspacesHold(w.projects, w.members, op.me, p);
    assert Reachable(w', op.me, p);
  }

  /** Nor does deleting a workspace: a sibling is left. */
  lemma DeletersCanSignIn(cfg: Config, w: World, w': World, me: User, x: Option<ProjectId>)
    requires Sound(w) && DeleteWorkspace(w, me, x) == Ok(w')
    ensures SelectMembership(w', me, None).Ok?
  {
    var who := SelectMembership(w, me, x).value;
    AnswersAreMembers(w, me, x);
    WithoutIdHolds(w.projects, who.project);
    WithoutIdOrdered(w.projects, who.project);
    OldestExactly(w', me);
    hide SelectMembership, Sound, WithoutId;
    var q :| q in w.projects && q.id != who.project && q.org == Some(who.org);
    assert Reachable(w', me, q);
  }
}
