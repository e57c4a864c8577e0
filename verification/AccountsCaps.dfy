/** Caps over whole runs: seats are members plus outstanding invitations, only an invitation adds to them,
    and no organization goes past its seat or workspace limit. */
module AccountsCaps {
  import opened Prelude
  import opened AccountsSpec
  import opened AccountsAccess
  import opened AccountsInvariants

  /** Fewer rows, fewer seats. */
  lemma SeatsShrink(w: World, w': World, o: OrgId)
    requires Members(w', o) <= Members(w, o) && Pending(w', o) <= Pending(w, o)
    ensures SeatCount(w', o) <= SeatCount(w, o)
  {
    CardSubset(Members(w', o), Members(w, o));
    CardSubset(Pending(w', o), Pending(w, o));
  }

  /** A new organization starts with one seat. */
  lemma SeatsFounded(w: World, w': World, org: OrgId, u: User, o: OrgId)
    requires Sound(w) && org !in w.orgs
    requires w'.members == w.members[(org, u) := "OWNER"] && w'.invites == w.invites
    ensures SeatCount(w', o) == if o == org then 1 else SeatCount(w, o)
  {
    assert Pending(w', o) == Pending(w, o);
    if o == org {
      forall k ensures k in Members(w', o) <==> k == (org, u) { assert MemberSound(w, k); }
      assert Members(w', o) == {(org, u)};
      forall t ensures t !in Pending(w, o) { assert InviteSound(w, t); }
      assert Pending(w, o) == {};
    } else {
      assert Members(w', o) == Members(w, o);
    }
  }

  lemma RegisterSeats(cfg: Config, w: World, w': World, email: User, password: string, now: Time, org: OrgId, project: ProjectId, o: OrgId)
    requires Sound(w) && Register(cfg, w, email, password, now, org, project) == Ok(w')
    ensures SeatCount(w', o) == if o == org then 1 else SeatCount(w, o)
    ensures org !in w.orgs
  {
    SeatsFounded(w, w', org, email, o);
  }

  lemma NewOrgSeats(cfg: Config, w: World, w': World, me: User, x: Option<ProjectId>, now: Time, org: OrgId, project: ProjectId, o: OrgId)
    requires Sound(w) && NewOrg(cfg, w, me, x, now, org, project) == Ok(w')
    ensures SeatCount(w', o) == if o == org then 1 else SeatCount(w, o)
    ensures org !in w.orgs
  {
    SeatsFounded(w, w', org, me, o);
  }

  lemma PendingAdded(w: World, w': World, t: Token, v: Invite, o: OrgId)
    requires t !in w.invites && v.status == PENDING && w'.invites == w.invites[t := v]
    ensures |Pending(w', o)| == |Pending(w, o)| + if o == v.org then 1 else 0
  {
    var more := if o == v.org then {t} else {};
    forall s ensures s in Pending(w', o) <==> s in Pending(w, o) + more {
      if s != t { assert Find(w'.invites, s) == Find(w.invites, s); }
    }
    assert Pending(w', o) == Pending(w, o) + more && t !in Pending(w, o);
  }

  /** An invitation is one more seat, and only where the guard let it pass. */
  lemma SeatsInvited(cfg: Config, w: World, w': World, me: User, x: Option<ProjectId>, email: User, role: Role,
                     token: Token, expires: Time, o: OrgId)
    requires CreateInvitation(cfg, w, me, x, email, role, token, expires) == Ok(w')
    ensures var org := SelectMembership(w, me, x).value.org;
            && SeatCount(w', o) == SeatCount(w, o) + (if o == org then 1 else 0)
            && org in w.orgs && SeatRefused(cfg, w, org).None?
  {
    PendingAdded(w, w', token, Invite(SelectMembership(w, me, x).value.org, email, role, expires, PENDING, None), o);
    assert Members(w', o) == Members(w, o);
  }

  lemma PendingSpent(w: World, w': World, t: Token, o: OrgId)
    requires t in w.invites && w.invites[t].status == PENDING
    requires w'.invites == w.invites[t := w.invites[t].(status := ACCEPTED)]
    ensures |Pending(w', o)| == |Pending(w, o)| - if o == w.invites[t].org then 1 else 0
  {
    if o == w.invites[t].org {
      assert t in Pending(w, o);
      assert Pending(w', o) == Pending(w, o) - {t};
    } else {
      assert Pending(w', o) == Pending(w, o);
    }
  }

  lemma MemberJoined(w: World, w': World, k: (OrgId, User), r: Role, o: OrgId)
    requires w'.members == if k in w.members then w.members else w.members[k := r]
    ensures |Members(w', o)| == |Members(w, o)| + if o == k.0 && k !in w.members then 1 else 0
  {
    if o == k.0 && k !in w.members {
      assert Members(w', o) == Members(w, o) + {k};
    } else {
      assert Members(w', o) == Members(w, o);
    }
  }

  /** Accepting trades a pending seat for a member's, and frees it when the person is in already. */
  lemma SeatsAccepted(w: World, w': World, token: Token, password: string, now: Time, o: OrgId)
    requires Accept(w, token, password, now) == Ok(w')
    ensures var v := w.invites[token];
            SeatCount(w', o) == SeatCount(w, o) - if o == v.org && (o, v.email) in w.members then 1 else 0
  {
    var v := w.invites[token];
    PendingSpent(w, w', token, o);
    MemberJoined(w, w', (v.org, v.email), v.role, o);
  }

  /** Removing a member of the caller's organization frees exactly one seat there. */
  lemma SeatsRemoved(w: World, w': World, me: User, x: Option<ProjectId>, target: User, o: OrgId)
    requires RemoveMember(w, me, x, target) == Ok(w')
    ensures SeatCount(w', o) == SeatCount(w, o) - if o == SelectMembership(w, me, x).value.org then 1 else 0
  {
    var org := SelectMembership(w, me, x).value.org;
    assert Pending(w', o) == Pending(w, o);
    if o == org {
      assert (org, target) in Members(w, o);
      assert Members(w', o) == Members(w, o) - {(org, target)};
    } else {
      assert Members(w', o) == Members(w, o);
    }
  }

  lemma RevokeSeats(w: World, w': World, me: User, x: Option<ProjectId>, token: Token, o: OrgId)
    requires Revoke(w, me, x, token) == Ok(w')
    ensures SeatCount(w', o) <= SeatCount(w, o) && w'.orgs == w.orgs
  {
    SeatsShrink(w, w', o);
  }

  lemma DeleteSeats(w: World, w': World, me: User, x: Option<ProjectId>, o: OrgId)
    requires DeleteOrg(w, me, x) == Ok(w')
    ensures SeatCount(w', o) <= SeatCount(w, o) && (o in w'.orgs ==> o in w.orgs)
  {
    SeatsShrink(w, w', o);
  }

  lemma DeleteWorkspaceSeats(w: World, w': World, me: User, x: Option<ProjectId>, o: OrgId)
    requires DeleteWorkspace(w, me, x) == Ok(w')
    ensures SeatCount(w', o) <= SeatCount(w, o) && w'.orgs == w.orgs
  {
    SeatsShrink(w, w', o);
  }

  /** The members and invitations are those from before, and so are the organizations' ids. */
  lemma SeatsSame(w: World, w': World, o: OrgId)
    requires w'.members == w.members && w'.invites == w.invites
    ensures SeatCount(w', o) == SeatCount(w, o)
  {
    SeatsShrink(w, w', o);
    SeatsShrink(w', w, o);
  }

  /** One more seat where an invitation was let pass, one in a new organization, and nowhere else more. */
  ghost predicate SeatRule(cfg: Config, w: World, w': World, o: OrgId, invited: bool) {
    && (invited ==> SeatCount(w', o) == SeatCount(w, o) + 1 && o in w.orgs && SeatRefused(cfg, w, o).None?)
    && (!invited && o in w.orgs ==> SeatCount(w', o) <= SeatCount(w, o))
    && (o !in w.orgs && o in w'.orgs ==> SeatCount(w', o) == 1)
  }

  predicate Invites(cfg: Config, w: World, op: Op, o: OrgId) {
    op.OpInvite? && Apply(cfg, w, op).Ok? && SelectMembership(w, op.me, op.x).value.org == o
  }

  /** No operation but an admitted invitation adds a seat to an organization that exists. */
  lemma OnlyInvitesAddSeats(cfg: Config, w: World, op: Op, o: OrgId)
    requires Sound(w)
    ensures var w' := Next(cfg, w, op);
            SeatRule(cfg, w, w', o, Invites(cfg, w, op, o))
  {
    var w' := Next(cfg, w, op);
    hide SeatCount, SelectMembership, Sound, SeatRefused, HasOrg, HasId, Workspaces;
    if Apply(cfg, w, op).Ok? {
      match op
      case OpRegister(email, password, now, org, project) => RegisterSeats(cfg, w, w', email, password, now, org, project, o);
      case OpNewOrg(me, x, now, org, project) => NewOrgSeats(cfg, w, w', me, x, now, org, project, o);
      case OpInvite(me, x, email, role, token, expires) => SeatsInvited(cfg, w, w', me, x, email, role, token, expires, o);
      case OpAccept(token, password, now) => SeatsAccepted(w, w', token, password, now, o);
      case OpRevoke(me, x, token) => RevokeSeats(w, w', me, x, token, o);
      case OpRemove(me, x, target) => SeatsRemoved(w, w', me, x, target, o);
      case OpDelete(me, x) => DeleteSeats(w, w', me, x, o);
      case OpDeleteWorkspace(me, x) => DeleteWorkspaceSeats(w, w', me, x, o);
      case _ => SeatsSame(w, w', o);
    }
  }

  // ---------------------------------------------------------------- workspaces

  lemma AdoptedCount(ps: seq<Project>, org: OrgId, o: OrgId)
    requires ps != [] && forall p <- ps :: p.org.None?
    ensures WorkspaceCount(ps[0 := ps[0].(org := Some(org))], o) == if o == org then 1 else 0
  {
    assert ps[0 := ps[0].(org := Some(org))][1..] == ps[1..];
    NoneCounted(ps[1..], o);
  }

  lemma NoneBefore(w: World, o: OrgId)
    requires Sound(w) && o !in w.orgs
    ensures WorkspaceCount(w.projects, o) == 0
  {
    NoneCounted(w.projects, o);
  }

  predicate AddsWorkspace(cfg: Config, w: World, op: Op, o: OrgId) {
    op.OpNewWorkspace? && Apply(cfg, w, op).Ok? && SelectMembership(w, op.me, op.x).value.org == o
  }

  /** `assert_can_add_workspace` lets the request pass. */
  predicate RoomForWorkspace(cfg: Config, w: World, o: OrgId)
    requires o in w.orgs
  {
    var limit := WorkspaceLimit(cfg, w.orgs[o]);
    cfg.billing && limit.Some? ==> WorkspaceCount(w.projects, o) < limit.value
  }

  /** One more workspace where the guard let it pass, one in a new organization, and nowhere else more. */
  ghost predicate WorkspaceRule(cfg: Config, w: World, w': World, o: OrgId, added: bool) {
    && (added ==> WorkspaceCount(w'.projects, o) == WorkspaceCount(w.projects, o) + 1 && o in w.orgs && RoomForWorkspace(cfg, w, o))
    && (!added && o in w.orgs ==> WorkspaceCount(w'.projects, o) <= WorkspaceCount(w.projects, o))
    && (o !in w.orgs && o in w'.orgs ==> WorkspaceCount(w'.projects, o) == 1)
  }

  lemma RegisterCount(cfg: Config, w: World, w': World, email: User, password: string, now: Time, org: OrgId, project: ProjectId, o: OrgId)
    requires Sound(w) && Register(cfg, w, email, password, now, org, project) == Ok(w')
    ensures WorkspaceCount(w'.projects, o) == WorkspaceCount(w.projects, o) + if o == org then 1 else 0
    ensures org !in w.orgs
  {
    if w.users == map[] {
      NoneCounted(w.projects, o);
      if w.projects != [] { AdoptedCount(w.projects, org, o); }
    } else {
      PlacedCount(w.projects, Project(project, now, Some(org)), o);
    }
  }

  lemma NewOrgCount(cfg: Config, w: World, w': World, me: User, x: Option<ProjectId>, now: Time, org: OrgId, project: ProjectId, o: OrgId)
    requires NewOrg(cfg, w, me, x, now, org, project) == Ok(w')
    ensures WorkspaceCount(w'.projects, o) == WorkspaceCount(w.projects, o) + if o == org then 1 else 0
    ensures org !in w.orgs
  {
    PlacedCount(w.projects, Project(project, now, Some(org)), o);
  }

  lemma NewWorkspaceCount(cfg: Config, w: World, w': World, me: User, x: Option<ProjectId>, now: Time, project: ProjectId, o: OrgId)
    requires NewWorkspace(cfg, w, me, x, now, project) == Ok(w')
    ensures var org := SelectMembership(w, me, x).value.org;
            && WorkspaceCount(w'.projects, o) == WorkspaceCount(w.projects, o) + (if o == org then 1 else 0)
            && org in w.orgs && RoomForWorkspace(cfg, w, org)
    ensures w'.orgs == w.orgs
  {
    PlacedCount(w.projects, Project(project, now, Some(SelectMembership(w, me, x).value.org)), o);
  }

  lemma SeedCount(w: World, w': World, now: Time, project: ProjectId, o: OrgId)
    requires SeedProject(w, now, project) == Ok(w')
    ensures WorkspaceCount(w'.projects, o) == WorkspaceCount(w.projects, o) && w'.orgs == w.orgs
  {
    PlacedCount(w.projects, Project(project, now, None), o);
  }

  /** Deleting a workspace takes exactly one from its organization, which keeps at least one. */
  lemma DeleteWorkspaceCount(w: World, w': World, me: User, x: Option<ProjectId>, o: OrgId)
    requires Sound(w) && DeleteWorkspace(w, me, x) == Ok(w')
    ensures var mine := o == SelectMembership(w, me, x).value.org;
            && WorkspaceCount(w'.projects, o) == WorkspaceCount(w.projects, o) - (if mine then 1 else 0)
            && (mine ==> WorkspaceCount(w'.projects, o) >= 1)
    ensures w'.orgs == w.orgs
  {
    var who := SelectMembership(w, me, x).value;
    AnswersAreRows(w, me, x);
    var p :| Answers(w, me, p, who);
    WithoutIdCount(w.projects, p, o);
    if o == who.org {
      WithoutIdHolds(w.projects, p.id);
      NoneCounted(w'.projects, o);
      var q :| q in w.projects && q.id != who.project && q.org == Some(o);
      assert q in w'.projects;
    }
  }

  lemma OthersKeepProjects(cfg: Config, w: World, op: Op)
    requires op.OpSetPassword? || op.OpInvite? || op.OpAccept? || op.OpRevoke? || op.OpRemove? || op.OpSetPlan?
    ensures Next(cfg, w, op).projects == w.projects && Next(cfg, w, op).orgs.Keys == w.orgs.Keys
  {
    hide SelectMembership, SeatRefused, HasOrg, HasId, Members, Owners, Survivor, CompaniesJoined, Manages;
  }

  lemma DeleteCount(w: World, w': World, me: User, x: Option<ProjectId>, o: OrgId)
    requires DeleteOrg(w, me, x) == Ok(w')
    ensures WorkspaceCount(w'.projects, o) <= WorkspaceCount(w.projects, o) && (o in w'.orgs ==> o in w.orgs)
  {
    OutsideCount(w.projects, SelectMembership(w, me, x).value.org, o);
  }

  /** No operation but an admitted new workspace adds one to an organization that exists. */
  lemma OnlyNewWorkspaceAdds(cfg: Config, w: World, op: Op, o: OrgId)
    requires Sound(w)
    ensures var w' := Next(cfg, w, op);
            WorkspaceRule(cfg, w, w', o, AddsWorkspace(cfg, w, op, o))
  {
    var w' := Next(cfg, w, op);
    if o !in w.orgs { NoneBefore(w, o); }
    hide Accept, Revoke, RemoveMember, CreateInvitation, SetPlan,
         WorkspaceCount, SelectMembership, Sound, SeatRefused, HasOrg, HasId, Workspaces, RoomForWorkspace,
         Members, Owners, Survivor, CompaniesJoined, Placed, Outside, Bootstrap, SignupPersonal, Manages, WorkspaceLimit;
    if Apply(cfg, w, op).Ok? {
      match op
      case OpRegister(email, password, now, org, project) => RegisterCount(cfg, w, w', email, password, now, org, project, o);
      case OpNewOrg(me, x, now, org, project) => NewOrgCount(cfg, w, w', me, x, now, org, project, o);
      case OpNewWorkspace(me, x, now, project) => NewWorkspaceCount(cfg, w, w', me, x, now, project, o);
      case OpDelete(me, x) => DeleteCount(w, w', me, x, o);
      case OpDeleteWorkspace(me, x) => DeleteWorkspaceCount(w, w', me, x, o);
      case OpSeed(now, project) => SeedCount(w, w', now, project, o);
      case _ => OthersKeepProjects(cfg, w, op);
    }
  }

  // ---------------------------------------------------------------- whole runs

  /** Within the cap; an organization always has its owner and its first workspace. */
  predicate Within(count: nat, limit: Option<int>) {
    limit.Some? ==> count <= Max(limit.value, 1)
  }

  predicate CappedAt(cfg: Config, w: World, o: OrgId) {
    cfg.billing && o in w.orgs ==>
      && Within(SeatCount(w, o), SeatLimit(cfg, w.orgs[o]))
      && Within(WorkspaceCount(w.projects, o), WorkspaceLimit(cfg, w.orgs[o]))
  }

  predicate NotLower(before: Option<int>, after: Option<int>) {
    after.None? || (before.Some? && before.value <= after.value)
  }

  /** The change of plan takes no room away. */
  predicate NoLess(cfg: Config, before: Org, after: Org) {
    NotLower(SeatLimit(cfg, before), SeatLimit(cfg, after)) && NotLower(WorkspaceLimit(cfg, before), WorkspaceLimit(cfg, after))
  }

  predicate Upgrades(cfg: Config, w: World, op: Op) {
    op.OpSetPlan? && op.o in w.orgs ==> NoLess(cfg, w.orgs[op.o], w.orgs[op.o].(plan := op.plan))
  }

  ghost predicate NeverDowngraded(cfg: Config, w: World, ops: seq<Op>) {
    forall i :: 0 <= i < |ops| ==> Upgrades(cfg, Run(cfg, w, ops[..i]), ops[i])
  }

  /** Nobody but a change of plan touches an existing organization's kind and plan. */
  lemma OrgsKept(cfg: Config, w: World, op: Op, o: OrgId)
    requires Upgrades(cfg, w, op) && o in w.orgs && o in Next(cfg, w, op).orgs
    ensures NoLess(cfg, w.orgs[o], Next(cfg, w, op).orgs[o]) && Next(cfg, w, op).orgs[o].kind == w.orgs[o].kind
  {
    hide SelectMembership, SeatCount, WorkspaceCount, CompaniesJoined, HasOrg, HasId;
  }

  /** The guards, read as caps. */
  lemma CapKept(cfg: Config, w: World, w': World, o: OrgId, invited: bool, added: bool)
    requires CappedAt(cfg, w, o) && SeatRule(cfg, w, w', o, invited) && WorkspaceRule(cfg, w, w', o, added)
    requires o in w.orgs && o in w'.orgs ==> NoLess(cfg, w.orgs[o], w'.orgs[o]) && w'.orgs[o].kind == w.orgs[o].kind
    requires invited || added ==> w'.orgs == w.orgs
    ensures CappedAt(cfg, w', o)
  {
    hide SeatCount, WorkspaceCount;
  }

  /** With billing on and no plan lowered, no run from within its caps, so no run from empty tables, ever takes
      an organization past its seats (members plus outstanding invitations) or its workspaces. */
  lemma {:induction false} RunCapped(cfg: Config, w: World, ops: seq<Op>, o: OrgId)
    requires Sound(w) && CappedAt(cfg, w, o) && NeverDowngraded(cfg, w, ops)
    ensures CappedAt(cfg, Run(cfg, w, ops), o)
  {
    if ops != [] {
      var before, op := ops[..|ops| - 1], ops[|ops| - 1];
      forall i | 0 <= i < |before| ensures Upgrades(cfg, Run(cfg, w, before[..i]), before[i]) {
        assert before[..i] == ops[..i];
      }
      RunCapped(cfg, w, before, o);
      RunSound(cfg, w, before);
      NextCapped(cfg, Run(cfg, w, before), op, o);
    }
  }

  lemma NextCapped(cfg: Config, w: World, op: Op, o: OrgId)
    requires Sound(w) && CappedAt(cfg, w, o) && Upgrades(cfg, w, op)
    ensures CappedAt(cfg, Next(cfg, w, op), o)
  {
    var w' := Next(cfg, w, op);
    var invited, added := Invites(cfg, w, op, o), AddsWorkspace(cfg, w, op, o);
    OnlyInvitesAddSeats(cfg, w, op, o);
    OnlyNewWorkspaceAdds(cfg, w, op, o);
    assert invited || added ==> w'.orgs == w.orgs;
    if o in w.orgs && o in w'.orgs { OrgsKept(cfg, w, op, o); }
    hide *;
    CapKept(cfg, w, w', o, invited, added);
  }

  /** A personal account is one person for ever: a single seat, and one workspace unless its plan is
      unlimited. */
  lemma PersonalIsOnePerson(cfg: Config, w: World, ops: seq<Op>, o: OrgId)
    requires Sound(w) && o in Run(cfg, w, ops).orgs && Run(cfg, w, ops).orgs[o].kind == Personal
    ensures SeatCount(Run(cfg, w, ops), o) == 1
    ensures cfg.billing && CappedAt(cfg, w, o) && NeverDowngraded(cfg, w, ops) && Run(cfg, w, ops).orgs[o].plan != "unlimited" ==>
              WorkspaceCount(Run(cfg, w, ops).projects, o) == 1
  {
    var w' := Run(cfg, w, ops);
    RunSound(cfg, w, ops);
    if cfg.billing && CappedAt(cfg, w, o) && NeverDowngraded(cfg, w, ops) { RunCapped(cfg, w, ops, o); }
    hide Run, NeverDowngraded;
    SoloCounts(w', o);
  }

  lemma SoloCounts(w: World, o: OrgId)
    requires Sound(w) && o in w.orgs && w.orgs[o].kind == Personal
    ensures SeatCount(w, o) == 1 && WorkspaceCount(w.projects, o) >= 1
  {
    assert Solo(w, o) && OrgSound(w, o);
    var u :| (o, u) in w.members && forall v :: (o, v) in w.members ==> v == u;
    forall k ensures k in Members(w, o) <==> k == (o, u) {
      if k in Members(w, o) { assert (o, k.1) in w.members; }
    }
    assert Members(w, o) == {(o, u)};
    NoneCounted(w.projects, o);
  }
}
