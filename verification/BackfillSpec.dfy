/** Migration 0023's grouping of projects into one organization per owner, as a reference definition
    row by row, independent of the loops that perform it (module Backfill). */
module BackfillSpec {
  import opened Prelude

  type UserId = string
  type ProjectId = nat
  type OrgId = nat
  type Role = string

  const OWNER: Role := "OWNER"

  /** `_ROLE_RANK.get(role, 0)`. */
  function Rank(r: Role): nat {
    if r == "OWNER" then 2 else if r == "ADMIN" then 1 else 0
  }

  /** `_PLAN_RANK.get(plan or "free", 0)`. */
  function PlanRank(p: string): nat {
    if p == "unlimited" then 2 else if p == "pro" then 1 else 0
  }

  /** A NULL and an empty text column read alike, as "". */
  datatype Project = Project(
    id: ProjectId,
    created: nat,
    name: string,
    plan: string,
    billingOwner: Option<UserId>,
    customer: string,
    subscription: string,
    status: string,
    org: Option<OrgId>)

  /** `key` orders rows by (created_at, id); it is unique. */
  datatype Membership = Membership(key: nat, project: ProjectId, user: UserId, role: Role)

  datatype Kind = Personal | Company

  datatype Org = Org(name: string, kind: Kind, plan: string, customer: string, subscription: string, status: string)

  datatype Status = PENDING | ACCEPTED | REVOKED

  datatype Invite = Invite(
    project: Option<ProjectId>,
    org: Option<OrgId>,
    email: string,
    role: Role,
    expires: nat,
    status: Status)

  /** `projects` and `memberships` are listed in (created_at, id) order. */
  datatype Db = Db(
    projects: seq<Project>,
    memberships: seq<Membership>,
    orgs: map<OrgId, Org>,
    orgMembers: map<(OrgId, UserId), Role>,
    invites: seq<Invite>,
    nextOrg: OrgId)

  // ---------------------------------------------------------------- owners

  /** The memberships of one project, in order. */
  function Rows(ms: seq<Membership>, p: ProjectId): seq<Membership> {
    if ms == [] then []
    else
      var before, last := Rows(ms[..|ms| - 1], p), ms[|ms| - 1];
      if last.project == p then before + [last] else before
  }

  lemma {:induction false} RowsHold(ms: seq<Membership>, p: ProjectId, m: Membership)
    ensures m in Rows(ms, p) <==> m in ms && m.project == p
  {
    if ms != [] {
      RowsHold(ms[..|ms| - 1], p, m);
      assert ms == ms[..|ms| - 1] + [ms[|ms| - 1]];
    }
  }

  function OwnersAmong(rows: seq<Membership>): seq<Membership> {
    if rows == [] then [] else (if rows[0].role == OWNER then [rows[0]] else []) + OwnersAmong(rows[1..])
  }

  lemma {:induction false} OwnersAmongHold(rows: seq<Membership>, m: Membership)
    ensures m in OwnersAmong(rows) <==> m in rows && m.role == OWNER
  {
    if rows != [] {
      OwnersAmongHold(rows[1..], m);
      assert rows == [rows[0]] + rows[1..];
    }
  }

  /** `owner_of`: the billing owner, else the first OWNER, else the first member. */
  function OwnerOf(ms: seq<Membership>, p: Project): Option<UserId> {
    var rows := Rows(ms, p.id);
    if p.billingOwner.Some? then p.billingOwner
    else if OwnersAmong(rows) != [] then Some(OwnersAmong(rows)[0].user)
    else if rows != [] then Some(rows[0].user)
    else None
  }

  /** The projects of one owner that have no organization yet, in order. */
  function Owned(ms: seq<Membership>, ps: seq<Project>, o: UserId): seq<Project> {
    if ps == [] then []
    else
      var before, last := Owned(ms, ps[..|ps| - 1], o), ps[|ps| - 1];
      if last.org.None? && OwnerOf(ms, last) == Some(o) then before + [last] else before
  }

  lemma {:induction false} OwnedHold(ms: seq<Membership>, ps: seq<Project>, o: UserId, p: Project)
    ensures p in Owned(ms, ps, o) <==> p in ps && p.org.None? && OwnerOf(ms, p) == Some(o)
  {
    if ps != [] {
      OwnedHold(ms, ps[..|ps| - 1], o, p);
      assert ps == ps[..|ps| - 1] + [ps[|ps| - 1]];
    }
  }

  /** The distinct owners of organization-less projects, in order of first appearance. */
  function Owners(ms: seq<Membership>, ps: seq<Project>): seq<UserId> {
    if ps == [] then []
    else
      var before, last := Owners(ms, ps[..|ps| - 1]), ps[|ps| - 1];
      var o := OwnerOf(ms, last);
      if last.org.None? && o.Some? && o.value !in before then before + [o.value] else before
  }

  lemma {:induction false} OwnersHold(ms: seq<Membership>, ps: seq<Project>, p: Project)
    requires p in ps && p.org.None? && OwnerOf(ms, p).Some?
    ensures OwnerOf(ms, p).value in Owners(ms, ps)
  {
    assert ps == ps[..|ps| - 1] + [ps[|ps| - 1]];
    if p in ps[..|ps| - 1] { OwnersHold(ms, ps[..|ps| - 1], p); }
  }

  lemma {:induction false} OwnersOwn(ms: seq<Membership>, ps: seq<Project>, o: UserId)
    requires o in Owners(ms, ps)
    ensures Owned(ms, ps, o) != []
  {
    if o in Owners(ms, ps[..|ps| - 1]) { OwnersOwn(ms, ps[..|ps| - 1], o); }
  }

  lemma {:induction false} OwnersDistinct(ms: seq<Membership>, ps: seq<Project>)
    ensures forall i, j :: 0 <= i < j < |Owners(ms, ps)| ==> Owners(ms, ps)[i] != Owners(ms, ps)[j]
  {
    if ps != [] { OwnersDistinct(ms, ps[..|ps| - 1]); }
  }

  function IndexOf(os: seq<UserId>, o: UserId): (i: nat)
    ensures i <= |os|
    ensures i < |os| ==> os[i] == o
    ensures i == |os| <==> o !in os
  {
    if os == [] || os[0] == o then 0 else 1 + IndexOf(os[1..], o)
  }

  // ---------------------------------------------------------------- one organization

  /** Every membership on the given projects, project by project. */
  function AllRows(ms: seq<Membership>, ps: seq<Project>): seq<Membership> {
    if ps == [] then [] else AllRows(ms, ps[..|ps| - 1]) + Rows(ms, ps[|ps| - 1].id)
  }

  lemma {:induction false} AllRowsHold(ms: seq<Membership>, ps: seq<Project>, m: Membership)
    ensures m in AllRows(ms, ps) <==> m in ms && exists p <- ps :: p.id == m.project
  {
    if ps != [] {
      AllRowsHold(ms, ps[..|ps| - 1], m);
      RowsHold(ms, ps[|ps| - 1].id, m);
      assert ps == ps[..|ps| - 1] + [ps[|ps| - 1]];
    }
  }

  function Users(rows: seq<Membership>): set<UserId> {
    set m | m in rows :: m.user
  }

  function Seats(ms: seq<Membership>, ps: seq<Project>, owner: UserId): set<UserId> {
    Users(AllRows(ms, ps)) + {owner}
  }

  /** The strongest role a user holds among the rows; the first one wins among equals. */
  function Strongest(rows: seq<Membership>, u: UserId): Option<Role> {
    if rows == [] then None
    else
      var before, last := Strongest(rows[..|rows| - 1], u), rows[|rows| - 1];
      if last.user == u && (before.None? || Rank(last.role) > Rank(before.value)) then Some(last.role) else before
  }

  /** The role in the organization: OWNER for the owner, else the strongest role held. */
  function RoleIn(rows: seq<Membership>, owner: UserId, u: UserId): Role {
    if u == owner then OWNER else if Strongest(rows, u).Some? then Strongest(rows, u).value else "MEMBER"
  }

  /** The best plan among the projects, starting from free. */
  function BestPlan(ps: seq<Project>): string {
    if ps == [] then "free"
    else
      var before, last := BestPlan(ps[..|ps| - 1]), ps[|ps| - 1];
      if PlanRank(last.plan) > PlanRank(before) then last.plan else before
  }

  /** The first project with a Stripe customer. */
  function Payer(ps: seq<Project>): (p: Option<Project>)
    ensures p.Some? ==> p.value in ps && p.value.customer != ""
    ensures p.None? ==> forall q <- ps :: q.customer == ""
  {
    if ps == [] then None
    else
      var before := Payer(ps[..|ps| - 1]);
      assert ps == ps[..|ps| - 1] + [ps[|ps| - 1]];
      if before.Some? then before else if ps[|ps| - 1].customer != "" then Some(ps[|ps| - 1]) else None
  }

  function KindFor(ms: seq<Membership>, ps: seq<Project>, owner: UserId): Kind {
    if |ps| == 1 && |Seats(ms, ps, owner)| == 1 then Personal else Company
  }

  /** The organization made for one owner. */
  function OrgFor(ms: seq<Membership>, ps: seq<Project>, owner: UserId): Org {
    var payer := Payer(ps);
    Org(
      if ps != [] && ps[0].name != "" then ps[0].name else "Workspace",
      KindFor(ms, ps, owner),
      BestPlan(ps),
      if payer.Some? then payer.value.customer else "",
      if payer.Some? then payer.value.subscription else "",
      if payer.Some? then payer.value.status else "")
  }

  // ---------------------------------------------------------------- the whole database

  /** Rows reference existing organizations, new ids are unused, and project ids are unique. */
  ghost predicate WellFormed(db: Db) {
    && (forall id :: id in db.orgs ==> id < db.nextOrg)
    && (forall k :: k in db.orgMembers ==> k.0 in db.orgs)
    && (forall p <- db.projects :: p.org.Some? ==> p.org.value in db.orgs)
    && (forall i, j :: 0 <= i < j < |db.projects| ==> db.projects[i].id != db.projects[j].id)
  }

  /** Where a project without an organization belongs: its owner's position among the new ones. */
  function Home(db: Db, p: Project): Option<nat> {
    var owner := OwnerOf(db.memberships, p);
    if owner.Some? then Some(IndexOf(Owners(db.memberships, db.projects), owner.value)) else None
  }

  /** The project after the first `n` owners have been given their organizations. */
  function Assigned(db: Db, n: nat, p: Project): Project {
    var home := Home(db, p);
    if p.org.None? && home.Some? && home.value < n then p.(org := Some(db.nextOrg + home.value)) else p
  }

  /** The organization row under this id after the first `n` owners. */
  function OrgRow(db: Db, n: nat, id: OrgId): Option<Org> {
    var os := Owners(db.memberships, db.projects);
    if id in db.orgs then Some(db.orgs[id])
    else if db.nextOrg <= id < db.nextOrg + n && id - db.nextOrg < |os| then
      var owner := os[id - db.nextOrg];
      Some(OrgFor(db.memberships, Owned(db.memberships, db.projects, owner), owner))
    else None
  }

  /** The role a seat with this owner carries. */
  function SeatOf(db: Db, owner: UserId, u: UserId): Option<Role> {
    var ps := Owned(db.memberships, db.projects, owner);
    if u in Seats(db.memberships, ps, owner) then Some(RoleIn(AllRows(db.memberships, ps), owner, u)) else None
  }

  /** The organization membership under this key after the first `n` owners. */
  function MemberRow(db: Db, n: nat, k: (OrgId, UserId)): Option<Role> {
    var os := Owners(db.memberships, db.projects);
    if k in db.orgMembers then Some(db.orgMembers[k])
    else if db.nextOrg <= k.0 < db.nextOrg + n && k.0 - db.nextOrg < |os| then SeatOf(db, os[k.0 - db.nextOrg], k.1)
    else None
  }

  /** The tables after the first `n` owners, invitations apart. */
  ghost predicate Grouped(db: Db, n: nat, db': Db) {
    && db'.memberships == db.memberships
    && |db'.projects| == |db.projects|
    && (forall i :: 0 <= i < |db.projects| ==> db'.projects[i] == Assigned(db, n, db.projects[i]))
    && (forall id :: Find(db'.orgs, id) == OrgRow(db, n, id))
    && (forall k :: Find(db'.orgMembers, k) == MemberRow(db, n, k))
  }

  /** The organization of the project with this id, if there is such a project. */
  function OrgOfProject(ps: seq<Project>, id: ProjectId): Option<OrgId> {
    if ps == [] then None else if ps[0].id == id then ps[0].org else OrgOfProject(ps[1..], id)
  }

  /** An invitation without an organization follows its project. */
  function Carried(ps: seq<Project>, v: Invite): Invite {
    if v.org.Some? then v else v.(org := if v.project.Some? then OrgOfProject(ps, v.project.value) else None)
  }

  /** What `_backfill` leaves behind: nothing at all when every project has an organization. */
  ghost predicate Backfilled(db: Db, db': Db) {
    if forall p <- db.projects :: p.org.Some? then db' == db
    else
      var n := |Owners(db.memberships, db.projects)|;
      && Grouped(db, n, db')
      && db'.nextOrg == db.nextOrg + n
      && |db'.invites| == |db.invites|
      && forall i :: 0 <= i < |db.invites| ==> db'.invites[i] == Carried(db'.projects, db.invites[i])
  }
}
