/** Migration 0023's `_backfill`: the loops over rows and dictionaries, proved to leave exactly the tables
    that the row-by-row definition in BackfillSpec describes. */
module Backfill {
  import opened Prelude
  import opened BackfillSpec

  /** An organization being drawn up, before it is inserted. */
  datatype Draft = Draft(
    id: OrgId,
    name: string,
    projects: seq<Project>,
    plan: string,
    customer: string,
    subscription: string,
    status: string)

  /** `by_project.get(id) or []`. */
  function RowsIn(index: map<ProjectId, seq<Membership>>, p: ProjectId): seq<Membership> {
    if p in index then index[p] else []
  }

  ghost predicate Indexes(index: map<ProjectId, seq<Membership>>, ms: seq<Membership>) {
    forall p :: RowsIn(index, p) == Rows(ms, p)
  }

  /** `by_project.setdefault(...).append(...)` for every membership, in order. */
  method IndexByProject(ms: seq<Membership>) returns (index: map<ProjectId, seq<Membership>>)
    ensures Indexes(index, ms)
  {
    index := map[];
    for i := 0 to |ms|
      invariant Indexes(index, ms[..i])
    {
      assert ms[..i + 1][..i] == ms[..i];
      index := index[ms[i].project := RowsIn(index, ms[i].project) + [ms[i]]];
    }
    assert ms[..|ms|] == ms;
  }

  /** `owner_of`, on the index. */
  function OwnerIn(index: map<ProjectId, seq<Membership>>, p: Project): Option<UserId> {
    var rows := RowsIn(index, p.id);
    var owners := OwnersAmong(rows);
    if p.billingOwner.Some? then p.billingOwner
    else if owners != [] then Some(owners[0].user)
    else if rows != [] then Some(rows[0].user)
    else None
  }

  lemma OwnerInIs(index: map<ProjectId, seq<Membership>>, ms: seq<Membership>, p: Project)
    requires Indexes(index, ms)
    ensures OwnerIn(index, p) == OwnerOf(ms, p)
  {
    assert RowsIn(index, p.id) == Rows(ms, p.id);
    hide Rows, OwnersAmong;
  }

  /** The rows of `WHERE organization_id IS NULL`. */
  function Orgless(ps: seq<Project>): seq<Project> {
    if ps == [] then []
    else
      var before, last := Orgless(ps[..|ps| - 1]), ps[|ps| - 1];
      if last.org.None? then before + [last] else before
  }

  /** Grouping looks at nothing but the rows without an organization. */
  lemma {:induction false} OrglessSuffice(ms: seq<Membership>, ps: seq<Project>, o: UserId)
    ensures Owners(ms, Orgless(ps)) == Owners(ms, ps) && Owned(ms, Orgless(ps), o) == Owned(ms, ps, o)
  {
    if ps != [] {
      var before, last := Orgless(ps[..|ps| - 1]), ps[|ps| - 1];
      OrglessSuffice(ms, ps[..|ps| - 1], o);
      if last.org.None? {
        assert Orgless(ps)[..|before|] == before;
      }
    }
  }

  lemma {:induction false} OrglessEmpty(ps: seq<Project>)
    ensures Orgless(ps) == [] <==> forall p <- ps :: p.org.Some?
  {
    if ps != [] {
      OrglessEmpty(ps[..|ps| - 1]);
      assert ps == ps[..|ps| - 1] + [ps[|ps| - 1]];
    }
  }

  lemma {:induction false} OrglessHave(ps: seq<Project>)
    ensures forall p <- Orgless(ps) :: p.org.None?
  {
    if ps != [] { OrglessHave(ps[..|ps| - 1]); }
  }

  // ---------------------------------------------------------------- drafting

  /** The finished draft of an owner's projects. */
  function DraftFor(id: OrgId, ps: seq<Project>): Draft {
    var payer := Payer(ps);
    Draft(
      id,
      if ps != [] && ps[0].name != "" then ps[0].name else "Workspace",
      ps,
      BestPlan(ps),
      if payer.Some? then payer.value.customer else "",
      if payer.Some? then payer.value.subscription else "",
      if payer.Some? then payer.value.status else "")
  }

  /** A new entry for an owner seen for the first time. */
  function Opened(id: OrgId, p: Project): Draft {
    Draft(id, if p.name != "" then p.name else "Workspace", [], "free", "", "", "")
  }

  /** One more project in a draft: the better plan wins, and the first Stripe customer. */
  function Extended(d: Draft, p: Project): Draft {
    var plan := if PlanRank(p.plan) > PlanRank(d.plan) then p.plan else d.plan;
    if p.customer != "" && d.customer == "" then
      d.(projects := d.projects + [p], plan := plan,
         customer := p.customer, subscription := p.subscription, status := p.status)
    else d.(projects := d.projects + [p], plan := plan)
  }

  lemma OpenedDraft(id: OrgId, p: Project)
    ensures Extended(Opened(id, p), p) == DraftFor(id, [p])
  {
    assert [p][..0] == [];
    assert Payer([]).None? && BestPlan([]) == "free";
  }

  lemma ExtendedDraft(id: OrgId, ps: seq<Project>, p: Project)
    requires ps != []
    ensures Extended(DraftFor(id, ps), p) == DraftFor(id, ps + [p])
  {
    assert (ps + [p])[..|ps|] == ps;
  }

  /** The dictionary's entry for `o`: ids are handed out in the order of `os`. */
  function Entry(first: OrgId, os: seq<UserId>, o: UserId, owned: seq<Project>): Option<Draft> {
    var x := IndexOf(os, o);
    if x < |os| then Some(DraftFor(first + x, owned)) else None
  }

  function DraftOf(first: OrgId, ms: seq<Membership>, ps: seq<Project>, o: UserId): Option<Draft> {
    Entry(first, Owners(ms, ps), o, Owned(ms, ps, o))
  }

  ghost predicate Drafted(drafts: map<UserId, Draft>, order: seq<UserId>, first: OrgId, ms: seq<Membership>, ps: seq<Project>) {
    order == Owners(ms, ps) && forall o :: Find(drafts, o) == DraftOf(first, ms, ps, o)
  }

  lemma {:induction false} IndexOfGrown(os: seq<UserId>, o: UserId, u: UserId)
    requires o !in os
    ensures IndexOf(os + [o], u) == if u in os || u == o then IndexOf(os, u) else |os| + 1
  {
    if os != [] {
      assert (os + [o])[1..] == os[1..] + [o];
      if os[0] != u { IndexOfGrown(os[1..], o, u); }
    }
  }

  lemma {:induction false} OwnedNothing(ms: seq<Membership>, ps: seq<Project>, o: UserId)
    requires o !in Owners(ms, ps)
    ensures Owned(ms, ps, o) == []
  {
    if ps != [] { OwnedNothing(ms, ps[..|ps| - 1], o); }
  }

  /** What one more project does to the owners and to one owner's projects. */
  lemma OwnersStep(ms: seq<Membership>, ps: seq<Project>, p: Project, u: UserId)
    requires p.org.None?
    ensures var o := OwnerOf(ms, p);
            Owners(ms, ps + [p]) == if o.Some? && o.value !in Owners(ms, ps) then Owners(ms, ps) + [o.value] else Owners(ms, ps)
    ensures Owned(ms, ps + [p], u) == if OwnerOf(ms, p) == Some(u) then Owned(ms, ps, u) + [p] else Owned(ms, ps, u)
  {
    assert (ps + [p])[..|ps|] == ps;
  }

  lemma EntryStep(first: OrgId, os: seq<UserId>, owned: seq<Project>, p: Project, o: UserId, u: UserId)
    ensures o !in os && u != o ==> Entry(first, os + [o], u, owned) == Entry(first, os, u, owned)
    ensures o !in os && owned == [] ==> Entry(first, os + [o], o, owned + [p]) == Some(Extended(Opened(first + |os|, p), p))
    ensures o in os && owned != [] ==> Entry(first, os, o, owned + [p]) == Some(Extended(Entry(first, os, o, owned).value, p))
  {
    hide Extended, Opened, DraftFor;
    if o !in os {
      IndexOfGrown(os, o, u);
      IndexOfGrown(os, o, o);
      OpenedDraft(first + |os|, p);
      assert owned == [] ==> owned + [p] == [p];
    } else if owned != [] {
      ExtendedDraft(first + IndexOf(os, o), owned, p);
    }
  }

  /** One more project: the first branch skips it, the others open or extend its owner's draft. */
  lemma DraftedStep(drafts: map<UserId, Draft>, drafts': map<UserId, Draft>, order: seq<UserId>, order': seq<UserId>,
                    first: OrgId, ms: seq<Membership>, ps: seq<Project>, p: Project)
    requires Drafted(drafts, order, first, ms, ps) && p.org.None?
    requires OwnerOf(ms, p).None? ==> drafts' == drafts && order' == order
    requires OwnerOf(ms, p).Some? ==>
               var o := OwnerOf(ms, p).value;
               && order' == (if o in drafts then order else order + [o])
               && drafts' == drafts[o := Extended(if o in drafts then drafts[o] else Opened(first + |order|, p), p)]
    ensures Drafted(drafts', order', first, ms, ps + [p])
  {
    OwnersStep(ms, ps, p, "");
    forall u ensures (u in drafts <==> u in order) && Find(drafts', u) == DraftOf(first, ms, ps + [p], u) {
      assert Find(drafts, u) == DraftOf(first, ms, ps, u);
      OwnersStep(ms, ps, p, u);
      if u in order { OwnersOwn(ms, ps, u); } else { OwnedNothing(ms, ps, u); }
      if OwnerOf(ms, p).Some? { EntryStep(first, order, Owned(ms, ps, u), p, OwnerOf(ms, p).value, u); }
      hide Entry, Owners, Owned, OwnerOf, Extended, Opened, DraftFor;
    }
  }

  // ---------------------------------------------------------------- inserting

  function Ids(ps: seq<Project>): set<ProjectId> { set p | p in ps :: p.id }

  /** `UPDATE projects SET organization_id = org WHERE id IN ids`. */
  function Stamped(ps: seq<Project>, ids: set<ProjectId>, org: OrgId): seq<Project> {
    seq(|ps|, i requires 0 <= i < |ps| => if ps[i].id in ids then ps[i].(org := Some(org)) else ps[i])
  }

  /** The role dictionary after the rows: the owner's entry aside, each user's strongest role. */
  ghost predicate RolesOf(roles: map<UserId, Role>, owner: UserId, rows: seq<Membership>) {
    owner in roles && forall u :: u != owner ==> Find(roles, u) == Strongest(rows, u)
  }

  /** One row: a missing or weaker role is replaced. */
  function Promoted(roles: map<UserId, Role>, m: Membership): map<UserId, Role> {
    if m.user !in roles || Rank(m.role) > Rank(roles[m.user]) then roles[m.user := m.role] else roles
  }

  lemma RolesStep(roles: map<UserId, Role>, owner: UserId, rows: seq<Membership>, m: Membership)
    requires RolesOf(roles, owner, rows)
    ensures RolesOf(Promoted(roles, m), owner, rows + [m])
  {
    assert (rows + [m])[..|rows|] == rows;
    var roles' := Promoted(roles, m);
    forall u | u != owner ensures Find(roles', u) == Strongest(rows + [m], u) {
      assert Find(roles, u) == Strongest(rows, u);
    }
  }

  lemma {:induction false} StrongestIsSeat(rows: seq<Membership>, u: UserId)
    ensures Strongest(rows, u).Some? <==> u in Users(rows)
  {
    if rows != [] {
      var before, last := rows[..|rows| - 1], rows[|rows| - 1];
      assert rows == before + [last];
      StrongestIsSeat(before, u);
      if u in Users(rows) && u !in Users(before) {
        var m :| m in rows && m.user == u;
        assert m == last;
      }
    }
  }

  /** Once the owner's entry is OWNER, the dictionary holds every seat with its role. */
  lemma RolesAreSeats(db: Db, owner: UserId, roles: map<UserId, Role>)
    requires RolesOf(roles, owner, AllRows(db.memberships, Owned(db.memberships, db.projects, owner))) && roles[owner] == OWNER
    ensures forall u :: Find(roles, u) == SeatOf(db, owner, u)
  {
    var rows := AllRows(db.memberships, Owned(db.memberships, db.projects, owner));
    forall u ensures Find(roles, u) == SeatOf(db, owner, u) {
      StrongestIsSeat(rows, u);
      if u != owner { assert Find(roles, u) == Strongest(rows, u); }
    }
  }

  /** A membership row once `roles` have been inserted under `id`, keeping rows that exist. */
  function Joined(members: map<(OrgId, UserId), Role>, id: OrgId, roles: map<UserId, Role>, k: (OrgId, UserId)): Option<Role> {
    if k in members then Some(members[k]) else if k.0 == id then Find(roles, k.1) else None
  }

  // ---------------------------------------------------------------- one owner's step

  lemma ProjectsStep(db: Db, n: nat, ps: seq<Project>, owner: UserId)
    requires WellFormed(db) && n < |Owners(db.memberships, db.projects)| && owner == Owners(db.memberships, db.projects)[n]
    requires |ps| == |db.projects| && forall i :: 0 <= i < |ps| ==> ps[i] == Assigned(db, n, db.projects[i])
    ensures var ids := Ids(Owned(db.memberships, db.projects, owner));
            forall i :: 0 <= i < |ps| ==> Stamped(ps, ids, db.nextOrg + n)[i] == Assigned(db, n + 1, db.projects[i])
  {
    var owned := Owned(db.memberships, db.projects, owner);
    forall i | 0 <= i < |ps| ensures Stamped(ps, Ids(owned), db.nextOrg + n)[i] == Assigned(db, n + 1, db.projects[i]) {
      OwnedById(db, i, owner);
      HomeAt(db, n, owner, db.projects[i]);
      hide Home, Owned, OwnerOf, Owners;
    }
  }

  /** Project ids are unique, so the id tells which projects are this owner's. */
  lemma OwnedById(db: Db, i: nat, o: UserId)
    requires WellFormed(db) && i < |db.projects|
    ensures db.projects[i].id in Ids(Owned(db.memberships, db.projects, o)) <==>
              db.projects[i].org.None? && OwnerOf(db.memberships, db.projects[i]) == Some(o)
  {
    var p, owned := db.projects[i], Owned(db.memberships, db.projects, o);
    OwnedHold(db.memberships, db.projects, o, p);
    if p.id in Ids(owned) {
      var q :| q in owned && q.id == p.id;
      OwnedHold(db.memberships, db.projects, o, q);
      var j :| 0 <= j < |db.projects| && db.projects[j] == q;
      assert i == j;
    }
  }

  lemma HomeAt(db: Db, n: nat, o: UserId, p: Project)
    requires n < |Owners(db.memberships, db.projects)| && o == Owners(db.memberships, db.projects)[n]
    ensures Home(db, p) == Some(n) <==> OwnerOf(db.memberships, p) == Some(o)
  {
    OwnersDistinct(db.memberships, db.projects);
  }

  lemma OrgsStep(db: Db, n: nat, orgs: map<OrgId, Org>, orgs': map<OrgId, Org>, owner: UserId)
    requires WellFormed(db) && n < |Owners(db.memberships, db.projects)| && owner == Owners(db.memberships, db.projects)[n]
    requires forall id :: Find(orgs, id) == OrgRow(db, n, id)
    requires orgs' == orgs[db.nextOrg + n := OrgFor(db.memberships, Owned(db.memberships, db.projects, owner), owner)]
    ensures forall id :: Find(orgs', id) == OrgRow(db, n + 1, id)
  {
    hide OrgFor, Owned, Owners;
    forall id ensures Find(orgs', id) == OrgRow(db, n + 1, id) {
      assert Find(orgs, id) == OrgRow(db, n, id);
    }
  }

  lemma MembersStep(db: Db, n: nat, members: map<(OrgId, UserId), Role>, members': map<(OrgId, UserId), Role>,
                    owner: UserId, roles: map<UserId, Role>)
    requires WellFormed(db) && n < |Owners(db.memberships, db.projects)| && owner == Owners(db.memberships, db.projects)[n]
    requires forall k :: Find(members, k) == MemberRow(db, n, k)
    requires forall u :: Find(roles, u) == SeatOf(db, owner, u)
    requires forall k :: Find(members', k) == Joined(members, db.nextOrg + n, roles, k)
    ensures forall k :: Find(members', k) == MemberRow(db, n + 1, k)
  {
    hide SeatOf, Owners;
    forall k ensures Find(members', k) == MemberRow(db, n + 1, k) {
      assert Find(members, k) == MemberRow(db, n, k);
      assert Find(members', k) == Joined(members, db.nextOrg + n, roles, k);
      assert Find(roles, k.1) == SeatOf(db, owner, k.1);
    }
  }

  lemma GroupedStart(db: Db, db': Db)
    requires WellFormed(db) && db' == db.(nextOrg := db'.nextOrg)
    ensures Grouped(db, 0, db')
  {
    hide Owners, SeatOf, OrgFor, Owned;
  }

  /** What one pass of the third loop does to the tables. */
  ghost predicate Inserted(before: Db, after: Db, owner: UserId, d: Draft, roles: map<UserId, Role>) {
    && after == before.(projects := after.projects, orgs := after.orgs, orgMembers := after.orgMembers)
    && after.projects == Stamped(before.projects, Ids(d.projects), d.id)
    && after.orgs == before.orgs[d.id := OrgFor(before.memberships, d.projects, owner)]
    && (forall k :: Find(after.orgMembers, k) == Joined(before.orgMembers, d.id, roles, k))
    && RolesOf(roles, owner, AllRows(before.memberships, d.projects)) && roles[owner] == OWNER
  }

  /** One owner's organization, projects and memberships take the tables one step further. */
  lemma GroupedStep(db: Db, n: nat, before: Db, after: Db, owner: UserId, d: Draft, roles: map<UserId, Role>)
    requires WellFormed(db) && n < |Owners(db.memberships, db.projects)| && owner == Owners(db.memberships, db.projects)[n]
    requires Grouped(db, n, before) && Inserted(before, after, owner, d, roles)
    requires d == DraftFor(db.nextOrg + n, Owned(db.memberships, db.projects, owner))
    ensures Grouped(db, n + 1, after)
  {
    hide OrgRow, MemberRow, Joined, SeatOf, Owned, Owners, OrgFor, Assigned, WellFormed, RolesOf, Ids, BestPlan, Payer;
    RolesAreSeats(db, owner, roles);
    ProjectsStep(db, n, before.projects, owner);
    OrgsStep(db, n, before.orgs, after.orgs, owner);
    MembersStep(db, n, before.orgMembers, after.orgMembers, owner, roles);
  }

  lemma BackfilledAll(db: Db, grouped: Db, after: Db)
    requires Orgless(db.projects) != []
    requires Grouped(db, |Owners(db.memberships, db.projects)|, grouped) && after == grouped.(invites := after.invites)
    requires after.nextOrg == db.nextOrg + |Owners(db.memberships, db.projects)|
    requires |after.invites| == |db.invites|
    requires forall i :: 0 <= i < |db.invites| ==> after.invites[i] == Carried(after.projects, db.invites[i])
    ensures Backfilled(db, after)
  {
    OrglessEmpty(db.projects);
    hide OrgRow, MemberRow, Assigned, Carried, Owners;
  }

  // ---------------------------------------------------------------- the migration

  /** The tables the migration reads and writes. */
  class Tables {
    var projects: seq<Project>
    var memberships: seq<Membership>
    var orgs: map<OrgId, Org>
    var orgMembers: map<(OrgId, UserId), Role>
    var invites: seq<Invite>
    var nextOrg: OrgId

    ghost function View(): Db
      reads this
    {
      Db(projects, memberships, orgs, orgMembers, invites, nextOrg)
    }

    /** The second loop: one draft per owner, each with a new id, in order of first appearance. */
    method DraftAll(pending: seq<Project>, index: map<ProjectId, seq<Membership>>) returns (drafts: map<UserId, Draft>, order: seq<UserId>)
      requires Indexes(index, memberships) && forall p <- pending :: p.org.None?
      modifies this`nextOrg
      ensures Drafted(drafts, order, old(nextOrg), memberships, pending)
      ensures nextOrg == old(nextOrg) + |order|
    {
      drafts, order := map[], [];
      for i := 0 to |pending|
        invariant Drafted(drafts, order, old(nextOrg), memberships, pending[..i])
        invariant nextOrg == old(nextOrg) + |order|
      {
        var p := pending[i];
        assert p in pending;
        OwnerInIs(index, memberships, p);
        hide Drafted, Extended, Opened, OwnerIn, OwnerOf, Indexes;
        var owner := OwnerIn(index, p);
        assert pending[..i + 1] == pending[..i] + [p];
        ghost var drafts0, order0 := drafts, order;
        if owner.Some? {
          var d;
          if owner.value !in drafts {
            d := Opened(nextOrg, p);
            nextOrg := nextOrg + 1;
            order := order + [owner.value];
          } else {
            d := drafts[owner.value];
          }
          drafts := drafts[owner.value := Extended(d, p)];
        }
        DraftedStep(drafts0, drafts, order0, order, old(nextOrg), memberships, pending[..i], p);
      }
      assert pending[..|pending|] == pending;
    }

    /** `UPDATE projects SET organization_id = :org WHERE id = :pid` for each project of the draft. */
    method AssignProjects(owned: seq<Project>, org: OrgId)
      modifies this`projects
      ensures projects == Stamped(old(projects), Ids(owned), org)
    {
      assert Ids(owned[..0]) == {};
      for i := 0 to |owned|
        invariant projects == Stamped(old(projects), Ids(owned[..i]), org)
      {
        projects := Stamped(projects, {owned[i].id}, org);
        assert owned[..i + 1] == owned[..i] + [owned[i]];
        assert Ids(owned[..i + 1]) == Ids(owned[..i]) + {owned[i].id};
      }
      assert owned[..|owned|] == owned;
    }

    /** The nested loops that collect each user's strongest role. */
    method CollectRoles(owner: UserId, owned: seq<Project>, index: map<ProjectId, seq<Membership>>) returns (roles: map<UserId, Role>)
      requires Indexes(index, memberships)
      ensures RolesOf(roles, owner, AllRows(memberships, owned)) && roles[owner] == OWNER
    {
      roles := map[owner := OWNER];
      for i := 0 to |owned|
        invariant RolesOf(roles, owner, AllRows(memberships, owned[..i]))
      {
        var rows := RowsIn(index, owned[i].id);
        ghost var done := AllRows(memberships, owned[..i]);
        assert done + rows[..0] == done;
        hide RolesOf;
        for j := 0 to |rows|
          invariant RolesOf(roles, owner, done + rows[..j])
        {
          RolesStep(roles, owner, done + rows[..j], rows[j]);
          assert done + rows[..j + 1] == done + rows[..j] + [rows[j]];
          roles := Promoted(roles, rows[j]);
        }
        assert owned[..i + 1][..i] == owned[..i] && rows[..|rows|] == rows;
      }
      assert owned[..|owned|] == owned;
      roles := roles[owner := OWNER];
    }

    /** `INSERT ... ON CONFLICT DO NOTHING` for each entry of the dictionary, in any order. */
    method InsertMembers(org: OrgId, roles: map<UserId, Role>)
      modifies this`orgMembers
      ensures forall k :: Find(orgMembers, k) == Joined(old(orgMembers), org, roles, k)
    {
      var todo := roles.Keys;
      while todo != {}
        invariant todo <= roles.Keys
        invariant forall k :: Find(orgMembers, k) ==
                    if k.0 == org && k.1 in todo then Find(old(orgMembers), k) else Joined(old(orgMembers), org, roles, k)
        decreases |todo|
      {
        var u :| u in todo;
        todo := todo - {u};
        if (org, u) !in orgMembers {
          orgMembers := orgMembers[(org, u) := roles[u]];
        }
      }
    }

    /** The third loop's body: the organization row, its projects, its memberships. */
    method InsertOrg(owner: UserId, d: Draft, index: map<ProjectId, seq<Membership>>) returns (roles: map<UserId, Role>)
      requires Indexes(index, memberships) && d == DraftFor(d.id, d.projects)
      modifies this`projects, this`orgs, this`orgMembers
      ensures Inserted(old(View()), View(), owner, d, roles)
    {
      var seats := SeatSet(d.projects, index, owner, memberships);
      var kind := if |d.projects| == 1 && |seats| == 1 then Personal else Company;
      orgs := orgs[d.id := Org(d.name, kind, d.plan, d.customer, d.subscription, d.status)];
      AssignProjects(d.projects, d.id);
      roles := CollectRoles(owner, d.projects, index);
      InsertMembers(d.id, roles);
    }

    /** The third loop: the owners in order of first appearance. */
    method InsertAll(drafts: map<UserId, Draft>, order: seq<UserId>, index: map<ProjectId, seq<Membership>>, ghost db: Db)
      requires WellFormed(db) && Grouped(db, 0, View()) && Indexes(index, memberships)
      requires order == Owners(db.memberships, db.projects)
      requires forall i :: 0 <= i < |order| ==>
                 order[i] in drafts && drafts[order[i]] == DraftFor(db.nextOrg + i, Owned(db.memberships, db.projects, order[i]))
      modifies this`projects, this`orgs, this`orgMembers
      ensures Grouped(db, |order|, View())
    {
      hide Grouped, WellFormed, Indexes, Owners, Owned, Inserted;
      for n := 0 to |order|
        invariant Grouped(db, n, View())
      {
        ghost var before := View();
        var owner := order[n];
        assert drafts[owner] == DraftFor(db.nextOrg + n, Owned(db.memberships, db.projects, owner));
        var roles := InsertOrg(owner, drafts[owner], index);
        GroupedStep(db, n, before, View(), owner, drafts[owner], roles);
      }
    }

    /** The whole migration step. */
    method Backfill()
      requires WellFormed(View())
      modifies this
      ensures Backfilled(old(View()), View())
    {
      ghost var db := View();
      var pending := Orgless(projects);
      OrglessEmpty(projects);
      OrglessHave(projects);
      if pending == [] {
        return;
      }
      var index := IndexByProject(memberships);
      var drafts, order := DraftAll(pending, index);
      DraftsInOrder(db, drafts, order);
      GroupedStart(db, View());
      hide WellFormed, Drafted, Indexes, Orgless, Owners, Grouped, DraftFor, Owned;
      InsertAll(drafts, order, index, db);
      ghost var grouped := View();
      CarryInvites();
      BackfilledAll(db, grouped, View());
    }

    /** The closing UPDATE: an invitation without an organization takes its project's. */
    method CarryInvites()
      modifies this`invites
      ensures |invites| == |old(invites)|
      ensures forall i :: 0 <= i < |invites| ==> invites[i] == Carried(projects, old(invites)[i])
    {
      invites := seq(|invites|, i requires 0 <= i < |invites| reads this => Carried(projects, invites[i]));
    }
  }

  /** The distinct users on these projects, and the owner. */
  method SeatSet(owned: seq<Project>, index: map<ProjectId, seq<Membership>>, owner: UserId, ghost ms: seq<Membership>)
    returns (seats: set<UserId>)
    requires Indexes(index, ms)
    ensures seats == Seats(ms, owned, owner)
  {
    SeatsComprehended(ms, owned, index);
    seats := {owner} + set p, m | p in owned && m in RowsIn(index, p.id) :: m.user;
  }

  /** Drafting from the rows without an organization draws up every owner of the whole table. */
  lemma DraftsInOrder(db: Db, drafts: map<UserId, Draft>, order: seq<UserId>)
    requires Drafted(drafts, order, db.nextOrg, db.memberships, Orgless(db.projects))
    ensures order == Owners(db.memberships, db.projects)
    ensures forall i :: 0 <= i < |order| ==>
              order[i] in drafts && drafts[order[i]] == DraftFor(db.nextOrg + i, Owned(db.memberships, db.projects, order[i]))
  {
    OrglessSuffice(db.memberships, db.projects, "");
    OwnersDistinct(db.memberships, db.projects);
    hide Orgless, Owners, Owned, DraftFor;
    forall i | 0 <= i < |order|
      ensures order[i] in drafts && drafts[order[i]] == DraftFor(db.nextOrg + i, Owned(db.memberships, db.projects, order[i]))
    {
      OrglessSuffice(db.memberships, db.projects, order[i]);
      assert Find(drafts, order[i]) == DraftOf(db.nextOrg, db.memberships, Orgless(db.projects), order[i]);
    }
  }

  lemma SeatsComprehended(ms: seq<Membership>, owned: seq<Project>, index: map<ProjectId, seq<Membership>>)
    requires Indexes(index, ms)
    ensures (set p, m | p in owned && m in RowsIn(index, p.id) :: m.user) == Users(AllRows(ms, owned))
  {
    var s := set p, m | p in owned && m in RowsIn(index, p.id) :: m.user;
    forall u | u in s ensures u in Users(AllRows(ms, owned)) {
      var p, m :| p in owned && m in RowsIn(index, p.id) && m.user == u;
      RowsHold(ms, p.id, m);
      AllRowsHold(ms, owned, m);
    }
    forall u | u in Users(AllRows(ms, owned)) ensures u in s {
      var m :| m in AllRows(ms, owned) && m.user == u;
      AllRowsHold(ms, owned, m);
      var p :| p in owned && p.id == m.project;
      RowsHold(ms, p.id, m);
      assert m in RowsIn(index, p.id);
    }
  }
}
