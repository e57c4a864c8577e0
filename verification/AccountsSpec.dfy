/** The local-mode account operations as functions on the tables: registration, organizations,
    workspaces, invitations, membership and the one access check, `select_membership`. */
module AccountsSpec {
  import opened Prelude

  /** A local account is identified by its address, unique among local users. */
  type User = string
  type OrgId = nat
  type ProjectId = nat
  type Token = nat
  type Time = nat
  type Role = string

  datatype Kind = Personal | Company

  datatype Org = Org(kind: Kind, plan: string)

  datatype Project = Project(id: ProjectId, created: Time, org: Option<OrgId>)

  datatype Status = PENDING | ACCEPTED | REVOKED

  /** `legacy` is the project an invitation targeted before organizations existed; none made since has one. */
  datatype Invite = Invite(
    org: OrgId,
    email: User,
    role: Role,
    expires: Time,
    status: Status,
    legacy: Option<ProjectId>)

  /** `projects` is listed in (created_at, id) order; `users` holds each account's password. */
  datatype World = World(
    users: map<User, string>,
    orgs: map<OrgId, Org>,
    members: map<(OrgId, User), Role>,
    projects: seq<Project>,
    invites: map<Token, Invite>)

  const EMPTY := World(map[], map[], map[], [], map[])

  /** The deployment's settings. */
  datatype Config = Config(
    billing: bool,
    publicSignup: bool,
    freeSpaces: int,
    proSpaces: int,
    freeSeats: int,
    proSeats: int,
    maxOrgs: int)

  /** An `AuthError` or `HTTPException`, by its status; 500 is a violated unique constraint. */
  datatype Refusal = Refused(status: nat)

  type Outcome = Result<World, Refusal>

  // ---------------------------------------------------------------- limits and counts

  /** `workspace_limit_for`. */
  function WorkspaceLimit(cfg: Config, o: Org): Option<int> {
    if o.plan == "unlimited" then None
    else if o.kind == Personal then Some(1)
    else Some(if o.plan == "pro" then cfg.proSpaces else cfg.freeSpaces)
  }

  /** `seat_limit_for`. */
  function SeatLimit(cfg: Config, o: Org): Option<int> {
    if o.plan == "unlimited" then None
    else if o.kind == Personal then Some(1)
    else Some(if o.plan == "pro" then cfg.proSeats else cfg.freeSeats)
  }

  function Members(w: World, o: OrgId): set<(OrgId, User)> {
    set k | k in w.members && k.0 == o
  }

  function Pending(w: World, o: OrgId): set<Token> {
    set t | t in w.invites && w.invites[t].org == o && w.invites[t].status == PENDING
  }

  /** `seat_count`: members plus outstanding invitations. */
  function SeatCount(w: World, o: OrgId): nat {
    |Members(w, o)| + |Pending(w, o)|
  }

  /** `workspace_count`. */
  function WorkspaceCount(ps: seq<Project>, o: OrgId): nat {
    if ps == [] then 0 else (if ps[0].org == Some(o) then 1 else 0) + WorkspaceCount(ps[1..], o)
  }

  /** `company_orgs_joined`. */
  function CompaniesJoined(w: World, u: User): set<OrgId> {
    set o | o in w.orgs && (o, u) in w.members && w.orgs[o].kind == Company
  }

  function Owners(w: World, o: OrgId): set<(OrgId, User)> {
    set k | k in w.members && k.0 == o && w.members[k] == "OWNER"
  }

  // ---------------------------------------------------------------- the project table

  /** `ORDER BY created_at, id`. */
  predicate Before(p: Project, q: Project) {
    p.created < q.created || (p.created == q.created && p.id < q.id)
  }

  function Placed(ps: seq<Project>, p: Project): seq<Project> {
    if ps == [] || Before(p, ps[0]) then [p] + ps else [ps[0]] + Placed(ps[1..], p)
  }

  /** The rows without the organization's workspaces. */
  function Outside(ps: seq<Project>, o: OrgId): seq<Project> {
    if ps == [] then [] else (if ps[0].org == Some(o) then [] else [ps[0]]) + Outside(ps[1..], o)
  }

  /** The rows without one workspace. */
  function WithoutId(ps: seq<Project>, id: ProjectId): seq<Project> {
    if ps == [] then [] else (if ps[0].id == id then [] else [ps[0]]) + WithoutId(ps[1..], id)
  }

  predicate HasId(ps: seq<Project>, id: ProjectId) { exists p <- ps :: p.id == id }

  predicate HasOrg(ps: seq<Project>, o: OrgId) { exists p <- ps :: p.org == Some(o) }

  // ---------------------------------------------------------------- select_membership

  datatype Principal = Principal(project: ProjectId, org: OrgId, role: Role)

  predicate Reaches(members: map<(OrgId, User), Role>, u: User, p: Project) {
    p.org.Some? && (p.org.value, u) in members
  }

  /** The join: every workspace of an organization the user belongs to, oldest first. */
  function Workspaces(ps: seq<Project>, members: map<(OrgId, User), Role>, u: User): (rows: seq<Project>)
    ensures forall p <- rows :: p in ps && Reaches(members, u, p)
  {
    if ps == [] then []
    else (if Reaches(members, u, ps[0]) then [ps[0]] else []) + Workspaces(ps[1..], members, u)
  }

  /** `next((r for r in rows if r[0] == x_project), None)`. */
  function Named(rows: seq<Project>, x: ProjectId): Option<Project> {
    if rows == [] then None else if rows[0].id == x then Some(rows[0]) else Named(rows[1..], x)
  }

  /** The one named by the header, else the oldest; 403 if there is none. */
  function SelectMembership(w: World, u: User, x: Option<ProjectId>): Result<Principal, Refusal> {
    var rows := Workspaces(w.projects, w.members, u);
    var row := if rows == [] then None else if x.Some? then Named(rows, x.value) else Some(rows[0]);
    if row.Some? && Reaches(w.members, u, row.value)
    then Ok(Principal(row.value.id, row.value.org.value, w.members[(row.value.org.value, u)]))
    else Err(Refused(403))
  }

  // ---------------------------------------------------------------- registering

  function WithOrg(w: World, org: OrgId, kind: Kind, owner: User): World {
    w.(orgs := w.orgs[org := Org(kind, "free")], members := w.members[(org, owner) := "OWNER"])
  }

  /** `bootstrap_owner`: a company organization that adopts the oldest local project, if any. */
  function Bootstrap(w: World, email: User, password: string, now: Time, org: OrgId, project: ProjectId): Outcome {
    var w1 := WithOrg(w.(users := w.users[email := password]), org, Company, email);
    if org in w.orgs then Err(Refused(500))
    else if w.projects == [] then Ok(w1.(projects := [Project(project, now, Some(org))]))
    else Ok(w1.(projects := w.projects[0 := w.projects[0].(org := Some(org))]))
  }

  /** `signup_personal`: a personal organization with one workspace. */
  function SignupPersonal(w: World, email: User, password: string, now: Time, org: OrgId, project: ProjectId): Outcome {
    var w1 := WithOrg(w.(users := w.users[email := password]), org, Personal, email);
    if org in w.orgs || HasId(w.projects, project) then Err(Refused(500))
    else Ok(w1.(projects := Placed(w.projects, Project(project, now, Some(org)))))
  }

  function Register(cfg: Config, w: World, email: User, password: string, now: Time, org: OrgId, project: ProjectId): Outcome {
    var first := w.users == map[];
    if !first && !cfg.publicSignup then Err(Refused(409))
    else if !first && email in w.users then Err(Refused(409))
    else if first then Bootstrap(w, email, password, now, org, project)
    else SignupPersonal(w, email, password, now, org, project)
  }

  // ---------------------------------------------------------------- inside an organization

  predicate Manages(p: Principal) { p.role in {"OWNER", "ADMIN"} }

  function NewOrg(cfg: Config, w: World, me: User, x: Option<ProjectId>, now: Time, org: OrgId, project: ProjectId): Outcome {
    var who := SelectMembership(w, me, x);
    if who.Err? then Err(who.error)
    else if cfg.billing && |CompaniesJoined(w, me)| >= cfg.maxOrgs then Err(Refused(409))
    else if org in w.orgs || HasId(w.projects, project) then Err(Refused(500))
    else Ok(WithOrg(w, org, Company, me).(projects := Placed(w.projects, Project(project, now, Some(org)))))
  }

  function NewWorkspace(cfg: Config, w: World, me: User, x: Option<ProjectId>, now: Time, project: ProjectId): Outcome {
    var who := SelectMembership(w, me, x);
    if who.Err? then Err(who.error)
    else if !Manages(who.value) then Err(Refused(403))
    else if who.value.org !in w.orgs then Err(Refused(404))
    else
      var limit := WorkspaceLimit(cfg, w.orgs[who.value.org]);
      if cfg.billing && limit.Some? && WorkspaceCount(w.projects, who.value.org) >= limit.value then Err(Refused(409))
      else if HasId(w.projects, project) then Err(Refused(500))
      else Ok(w.(projects := Placed(w.projects, Project(project, now, Some(who.value.org)))))
  }

  /** `assert_can_add_seat`. */
  function SeatRefused(cfg: Config, w: World, o: OrgId): Option<Refusal>
    requires o in w.orgs
  {
    var limit := SeatLimit(cfg, w.orgs[o]);
    if w.orgs[o].kind == Personal then Some(Refused(409))
    else if cfg.billing && limit.Some? && SeatCount(w, o) >= limit.value then Some(Refused(409))
    else None
  }

  function CreateInvitation(cfg: Config, w: World, me: User, x: Option<ProjectId>, email: User, role: Role,
                            token: Token, expires: Time): Outcome {
    var who := SelectMembership(w, me, x);
    if who.Err? then Err(who.error)
    else if !Manages(who.value) then Err(Refused(403))
    else if role !in {"ADMIN", "MEMBER"} then Err(Refused(400))
    else if who.value.org !in w.orgs then Err(Refused(404))
    else if SeatRefused(cfg, w, who.value.org).Some? then Err(SeatRefused(cfg, w, who.value.org).value)
    else if email in w.users && (who.value.org, email) in w.members then Err(Refused(409))
    else if token in w.invites then Err(Refused(500))
    else Ok(w.(invites := w.invites[token := Invite(who.value.org, email, role, expires, PENDING, None)]))
  }

  function Accept(w: World, token: Token, password: string, now: Time): Outcome {
    if token !in w.invites || w.invites[token].status != PENDING then Err(Refused(400))
    else
      var v := w.invites[token];
      if v.expires <= now then Err(Refused(400))
      else if v.email in w.users && w.users[v.email] != password then Err(Refused(401))
      else if !HasOrg(w.projects, v.org) then Err(Refused(400))
      else Ok(w.(
        invites := w.invites[token := v.(status := ACCEPTED)],
        users := if v.email in w.users then w.users else w.users[v.email := password],
        members := if (v.org, v.email) in w.members then w.members else w.members[(v.org, v.email) := v.role]))
  }

  function Revoke(w: World, me: User, x: Option<ProjectId>, token: Token): Outcome {
    var who := SelectMembership(w, me, x);
    if who.Err? then Err(who.error)
    else if !Manages(who.value) then Err(Refused(403))
    else if token !in w.invites || w.invites[token].org != who.value.org then Err(Refused(404))
    else if w.invites[token].status == PENDING then Ok(w.(invites := w.invites[token := w.invites[token].(status := REVOKED)]))
    else Ok(w)
  }

  /** Some workspace of another organization to land in. */
  predicate Survivor(w: World, u: User, o: OrgId) {
    exists p <- Workspaces(w.projects, w.members, u) :: p.org != Some(o)
  }

  function RemoveMember(w: World, me: User, x: Option<ProjectId>, target: User): Outcome {
    var who := SelectMembership(w, me, x);
    if who.Err? then Err(who.error)
    else if who.value.org !in w.orgs then Err(Refused(404))
    else
      var o := who.value.org;
      if (o, target) !in w.members then Err(Refused(404))
      else if target != me && !Manages(who.value) then Err(Refused(403))
      else if w.members[(o, target)] == "OWNER" && target != me && who.value.role != "OWNER" then Err(Refused(403))
      else if target == me && w.orgs[o].kind != Company then Err(Refused(400))
      else if w.members[(o, target)] == "OWNER" && |Owners(w, o)| == 1 then Err(Refused(409))
      else if target == me && !Survivor(w, me, o) then Err(Refused(409))
      else Ok(w.(members := w.members - {(o, target)}))
  }

  /** The organization's row, and every row that refers to it. */
  function WithoutOrg(w: World, o: OrgId): World {
    w.(
      orgs := w.orgs - {o},
      members := w.members - Members(w, o),
      projects := Outside(w.projects, o),
      invites := map t | t in w.invites && w.invites[t].org != o :: w.invites[t])
  }

  /** Invitations that name a deleted workspace from before are among the organization's own (InviteSound). */
  function DeleteOrg(w: World, me: User, x: Option<ProjectId>): Outcome {
    var who := SelectMembership(w, me, x);
    if who.Err? then Err(who.error)
    else if who.value.role != "OWNER" then Err(Refused(403))
    else if who.value.org !in w.orgs then Err(Refused(404))
    else
      var o := who.value.org;
      if w.orgs[o].kind != Company then Err(Refused(400))
      else if !Survivor(w, me, o) then Err(Refused(409))
      else Ok(WithoutOrg(w, o))
  }

  /** Another workspace of the same organization. */
  predicate HasSibling(ps: seq<Project>, p: Principal) {
    exists q <- ps :: q.id != p.project && q.org == Some(p.org)
  }

  /** The caller's active workspace, with the invitations that still name it from before organizations;
      never an organization's last. */
  function DeleteWorkspace(w: World, me: User, x: Option<ProjectId>): Outcome {
    var who := SelectMembership(w, me, x);
    if who.Err? then Err(who.error)
    else if !Manages(who.value) then Err(Refused(403))
    else if !HasSibling(w.projects, who.value) then Err(Refused(409))
    else Ok(WithoutWorkspace(w, who.value.project))
  }

  /** The workspace's row, and the invitations that name it. */
  function WithoutWorkspace(w: World, id: ProjectId): World {
    w.(
      projects := WithoutId(w.projects, id),
      invites := map t | t in w.invites && w.invites[t].legacy != Some(id) :: w.invites[t])
  }

  /** A password change or reset. */
  function SetPassword(w: World, me: User, password: string): Outcome {
    if me in w.users then Ok(w.(users := w.users[me := password])) else Err(Refused(404))
  }

  /** The command-line seeder: a project without an organization. */
  function SeedProject(w: World, now: Time, project: ProjectId): Outcome {
    if HasId(w.projects, project) then Err(Refused(500))
    else Ok(w.(projects := Placed(w.projects, Project(project, now, None))))
  }

  /** A Stripe webhook or an operator changing an organization's plan. */
  function SetPlan(w: World, o: OrgId, plan: string): Outcome {
    if o in w.orgs then Ok(w.(orgs := w.orgs[o := w.orgs[o].(plan := plan)])) else Err(Refused(404))
  }

  // ---------------------------------------------------------------- runs

  datatype Op =
    | OpRegister(email: User, password: string, now: Time, org: OrgId, project: ProjectId)
    | OpNewOrg(me: User, x: Option<ProjectId>, now: Time, org: OrgId, project: ProjectId)
    | OpNewWorkspace(me: User, x: Option<ProjectId>, now: Time, project: ProjectId)
    | OpInvite(me: User, x: Option<ProjectId>, email: User, role: Role, token: Token, expires: Time)
    | OpAccept(token: Token, password: string, now: Time)
    | OpRevoke(me: User, x: Option<ProjectId>, token: Token)
    | OpRemove(me: User, x: Option<ProjectId>, target: User)
    | OpDelete(me: User, x: Option<ProjectId>)
    | OpDeleteWorkspace(me: User, x: Option<ProjectId>)
    | OpSetPassword(me: User, password: string)
    | OpSeed(now: Time, project: ProjectId)
    | OpSetPlan(o: OrgId, plan: string)

  function Apply(cfg: Config, w: World, op: Op): Outcome {
    match op
    case OpRegister(email, password, now, org, project) => Register(cfg, w, email, password, now, org, project)
    case OpNewOrg(me, x, now, org, project) => NewOrg(cfg, w, me, x, now, org, project)
    case OpNewWorkspace(me, x, now, project) => NewWorkspace(cfg, w, me, x, now, project)
    case OpInvite(me, x, email, role, token, expires) => CreateInvitation(cfg, w, me, x, email, role, token, expires)
    case OpAccept(token, password, now) => Accept(w, token, password, now)
    case OpRevoke(me, x, token) => Revoke(w, me, x, token)
    case OpRemove(me, x, target) => RemoveMember(w, me, x, target)
    case OpDelete(me, x) => DeleteOrg(w, me, x)
    case OpDeleteWorkspace(me, x) => DeleteWorkspace(w, me, x)
    case OpSetPassword(me, password) => SetPassword(w, me, password)
    case OpSeed(now, project) => SeedProject(w, now, project)
    case OpSetPlan(o, plan) => SetPlan(w, o, plan)
  }

  /** A refused request is rolled back. */
  function Next(cfg: Config, w: World, op: Op): World {
    var r := Apply(cfg, w, op);
    if r.Ok? then r.value else w
  }

  function Run(cfg: Config, w: World, ops: seq<Op>): World {
    if ops == [] then w else Next(cfg, Run(cfg, w, ops[..|ops| - 1]), ops[|ops| - 1])
  }
}
