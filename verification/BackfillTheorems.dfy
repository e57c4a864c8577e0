/** What the backfill promises: nobody loses access, nobody's role weakens, access widens only within one
    owner, and a second run changes nothing. */
module BackfillTheorems {
  import opened Prelude
  import opened BackfillSpec

  /** `select_membership`'s join: the role through membership in the project's organization. */
  function RoleOf(db: Db, u: UserId, p: Project): Option<Role> {
    if p.org.Some? then Find(db.orgMembers, (p.org.value, u)) else None
  }

  /** A project is reachable when there is such a role. */
  predicate Reach(db: Db, u: UserId, p: Project) { RoleOf(db, u, p).Some? }

  /** Access as it was before: a membership row on the project itself. */
  ghost predicate HadAccess(db: Db, u: UserId, p: Project) {
    exists m <- db.memberships :: m.project == p.id && m.user == u
  }

  /** Somebody with access to a project of owner `o`, or `o`. */
  ghost predicate OfOwner(db: Db, u: UserId, o: UserId) {
    u == o || exists q <- db.projects :: q.org.None? && OwnerOf(db.memberships, q) == Some(o) && HadAccess(db, u, q)
  }

  lemma SeatsAreOfOwner(db: Db, u: UserId, o: UserId)
    ensures SeatOf(db, o, u).Some? <==> OfOwner(db, u, o)
  {
    var ms := db.memberships;
    var ps := Owned(ms, db.projects, o);
    if u != o && u in Users(AllRows(ms, ps)) {
      var m :| m in AllRows(ms, ps) && m.user == u;
      AllRowsHold(ms, ps, m);
      var q :| q in ps && q.id == m.project;
      OwnedHold(ms, db.projects, o, q);
      assert HadAccess(db, u, q);
    }
    if u != o && OfOwner(db, u, o) {
      var q :| q in db.projects && q.org.None? && OwnerOf(ms, q) == Some(o) && HadAccess(db, u, q);
      var m :| m in ms && m.project == q.id && m.user == u;
      OwnedHold(ms, db.projects, o, q);
      AllRowsHold(ms, ps, m);
    }
  }

  /** The migration has something to do for this project. */
  ghost predicate Pending(db: Db, db': Db, i: nat) {
    Backfilled(db, db') && i < |db.projects| && db.projects[i].org.None?
  }

  lemma PendingGrouped(db: Db, db': Db, i: nat)
    requires Pending(db, db', i)
    ensures Grouped(db, |Owners(db.memberships, db.projects)|, db')
    ensures |db'.invites| == |db.invites|
    ensures forall v :: 0 <= v < |db.invites| ==> db'.invites[v] == Carried(db'.projects, db.invites[v])
  {
    assert db.projects[i] in db.projects;
    hide Grouped;
  }

  lemma HomeIsThere(db: Db, p: Project)
    requires p in db.projects && p.org.None?
    ensures Home(db, p).Some? <==> OwnerOf(db.memberships, p).Some?
    ensures Home(db, p).Some? ==>
              && Home(db, p).value < |Owners(db.memberships, db.projects)|
              && Some(Owners(db.memberships, db.projects)[Home(db, p).value]) == OwnerOf(db.memberships, p)
  {
    if OwnerOf(db.memberships, p).Some? { OwnersHold(db.memberships, db.projects, p); }
  }

  /** Where a project ends up: in the organization of its owner, or nowhere if it has none. */
  lemma Placed(db: Db, db': Db, i: nat)
    requires Pending(db, db', i)
    ensures |db'.projects| == |db.projects|
    ensures var home := Home(db, db.projects[i]);
            db'.projects[i] == db.projects[i].(org := if home.Some? then Some(db.nextOrg + home.value) else None)
  {
    PendingGrouped(db, db', i);
    HomeIsThere(db, db.projects[i]);
    hide Backfilled, Home, OrgRow, MemberRow, Owners, OwnerOf;
  }

  lemma MemberAt(db: Db, db': Db, x: nat, u: UserId)
    requires WellFormed(db) && Grouped(db, |Owners(db.memberships, db.projects)|, db')
    requires x < |Owners(db.memberships, db.projects)|
    ensures Find(db'.orgMembers, (db.nextOrg + x, u)) == SeatOf(db, Owners(db.memberships, db.projects)[x], u)
  {
    hide OrgRow, Owners, SeatOf, Assigned;
    var k := (db.nextOrg + x, u);
    assert k !in db.orgMembers;
    assert Find(db'.orgMembers, k) == MemberRow(db, |Owners(db.memberships, db.projects)|, k);
  }

  /** The role a user's seat with the owner of a project carries, if it has one and the user a seat. */
  function Standing(db: Db, u: UserId, p: Project): Option<Role> {
    var o := OwnerOf(db.memberships, p);
    if o.Some? then SeatOf(db, o.value, u) else None
  }

  lemma RoleAtHome(db: Db, db': Db, p: Project, p': Project, u: UserId)
    requires Home(db, p).Some? <==> OwnerOf(db.memberships, p).Some?
    requires p'.org == if Home(db, p).Some? then Some(db.nextOrg + Home(db, p).value) else None
    requires Home(db, p).Some? ==>
               Find(db'.orgMembers, (db.nextOrg + Home(db, p).value, u)) == SeatOf(db, OwnerOf(db.memberships, p).value, u)
    ensures RoleOf(db', u, p') == Standing(db, u, p)
  {
    hide Home, OwnerOf, SeatOf;
  }

  /** The role anybody has on a project afterwards, exactly: the one their seat with its owner carries. */
  lemma RoleExact(db: Db, db': Db, i: nat, u: UserId)
    requires WellFormed(db) && Pending(db, db', i)
    ensures |db'.projects| == |db.projects|
    ensures RoleOf(db', u, db'.projects[i]) == Standing(db, u, db.projects[i])
  {
    Placed(db, db', i);
    assert db.projects[i] in db.projects;
    HomeIsThere(db, db.projects[i]);
    hide *;
    var home := Home(db, db.projects[i]);
    if home.Some? {
      assert Grouped(db, |Owners(db.memberships, db.projects)|, db') by { PendingGrouped(db, db', i); }
      MemberAt(db, db', home.value, u);
    }
    RoleAtHome(db, db', db.projects[i], db'.projects[i], u);
  }

  /** Reach after the backfill, exactly: a user reaches a project iff it has an owner and the user is the
      owner or had access to some project of the same owner. */
  lemma ReachExact(db: Db, db': Db, i: nat, u: UserId)
    requires WellFormed(db) && Pending(db, db', i)
    ensures |db'.projects| == |db.projects|
    ensures Reach(db', u, db'.projects[i]) <==>
              OwnerOf(db.memberships, db.projects[i]).Some? && OfOwner(db, u, OwnerOf(db.memberships, db.projects[i]).value)
  {
    RoleExact(db, db', i, u);
    var o := OwnerOf(db.memberships, db.projects[i]);
    if o.Some? { SeatsAreOfOwner(db, u, o.value); }
  }

  lemma AccessMeansOwner(ms: seq<Membership>, p: Project, m: Membership)
    requires m in ms && m.project == p.id
    ensures OwnerOf(ms, p).Some?
  {
    RowsHold(ms, p.id, m);
  }

  /** Nobody loses a project: whoever had a membership on it still reaches it, and so does its owner. */
  lemma NobodyLosesAccess(db: Db, db': Db, i: nat, u: UserId)
    requires WellFormed(db) && Pending(db, db', i)
    requires HadAccess(db, u, db.projects[i]) || OwnerOf(db.memberships, db.projects[i]) == Some(u)
    ensures |db'.projects| == |db.projects| && Reach(db', u, db'.projects[i])
  {
    ReachExact(db, db', i, u);
    var p := db.projects[i];
    assert p in db.projects;
    if HadAccess(db, u, p) {
      var m :| m in db.memberships && m.project == p.id && m.user == u;
      AccessMeansOwner(db.memberships, p, m);
    }
  }

  lemma {:induction false} StrongestIsMax(rows: seq<Membership>, m: Membership)
    requires m in rows
    ensures Strongest(rows, m.user).Some? && Rank(Strongest(rows, m.user).value) >= Rank(m.role)
  {
    var last := rows[|rows| - 1];
    assert rows == rows[..|rows| - 1] + [last];
    if m in rows[..|rows| - 1] { StrongestIsMax(rows[..|rows| - 1], m); }
  }

  lemma {:induction false} StrongestIsHeld(rows: seq<Membership>, u: UserId)
    requires Strongest(rows, u).Some?
    ensures exists m <- rows :: m.user == u && m.role == Strongest(rows, u).value
  {
    var before, last := rows[..|rows| - 1], rows[|rows| - 1];
    assert rows == before + [last];
    if Strongest(before, u).Some? { StrongestIsHeld(before, u); }
    if Strongest(rows, u) == Some(last.role) && last.user == u { assert last in rows; }
  }

  /** The membership is on a project of this owner that the migration groups. */
  ghost predicate OnProjectOf(db: Db, o: UserId, h: Membership) {
    h in db.memberships && exists q <- db.projects :: q.id == h.project && q.org.None? && OwnerOf(db.memberships, q) == Some(o)
  }

  lemma RowsAreOnProjects(db: Db, o: UserId, h: Membership)
    ensures h in AllRows(db.memberships, Owned(db.memberships, db.projects, o)) <==> OnProjectOf(db, o, h)
  {
    var ps := Owned(db.memberships, db.projects, o);
    AllRowsHold(db.memberships, ps, h);
    if q :| q in ps && q.id == h.project { OwnedHold(db.memberships, db.projects, o, q); }
    if OnProjectOf(db, o, h) {
      var q :| q in db.projects && q.id == h.project && q.org.None? && OwnerOf(db.memberships, q) == Some(o);
      OwnedHold(db.memberships, db.projects, o, q);
    }
  }

  /** A seat's role: OWNER for the owner; for anybody else the strongest role held on the owner's projects, and
      one of those. */
  lemma SeatRole(db: Db, o: UserId, m: Membership)
    requires OnProjectOf(db, o, m)
    ensures SeatOf(db, o, m.user).Some?
    ensures var role := SeatOf(db, o, m.user).value;
            && (forall h :: OnProjectOf(db, o, h) && h.user == m.user ==> Rank(role) >= Rank(h.role))
            && (if o == m.user then role == OWNER else exists h :: OnProjectOf(db, o, h) && h.user == m.user && h.role == role)
  {
    var rows := AllRows(db.memberships, Owned(db.memberships, db.projects, o));
    RowsAreOnProjects(db, o, m);
    forall h | OnProjectOf(db, o, h) && h.user == m.user
      ensures Strongest(rows, m.user).Some? && Rank(Strongest(rows, m.user).value) >= Rank(h.role)
    {
      RowsAreOnProjects(db, o, h);
      StrongestIsMax(rows, h);
    }
    StrongestIsHeld(rows, m.user);
    var h :| h in rows && h.user == m.user && h.role == Strongest(rows, m.user).value;
    RowsAreOnProjects(db, o, h);
    assert m.user in Users(rows);
    hide AllRows, Owned, Strongest, OnProjectOf;
  }

  /** The user held this role on some project of the owner. */
  ghost predicate Held(db: Db, o: UserId, u: UserId, r: Role) {
    exists h :: OnProjectOf(db, o, h) && h.user == u && h.role == r
  }

  /** Roles afterwards, by name: OWNER for the owner and for whoever held OWNER on one of the owner's projects; ADMIN
      for whoever else held ADMIN on one; for anybody else a role they held; none for who held none. */
  lemma RolesExactly(db: Db, db': Db, i: nat, o: UserId, u: UserId)
    requires WellFormed(db) && Pending(db, db', i) && OwnerOf(db.memberships, db.projects[i]) == Some(o)
    ensures |db'.projects| == |db.projects|
    ensures RoleByName(db, o, u, RoleOf(db', u, db'.projects[i]))
  {
    RoleExact(db, db', i, u);
    SeatByName(db, o, u);
    hide WellFormed, Pending, RoleOf, Reach, OwnerOf, RoleByName, SeatOf;
  }

  ghost predicate RoleByName(db: Db, o: UserId, u: UserId, role: Option<Role>) {
    && (role == Some("OWNER") <==> u == o || Held(db, o, u, "OWNER"))
    && (role == Some("ADMIN") <==> u != o && Held(db, o, u, "ADMIN") && !Held(db, o, u, "OWNER"))
    && (role.Some? && u != o ==> Held(db, o, u, role.value))
    && (role.None? ==> u != o && forall h :: OnProjectOf(db, o, h) ==> h.user != u)
  }

  lemma SeatByName(db: Db, o: UserId, u: UserId)
    ensures RoleByName(db, o, u, SeatOf(db, o, u))
  {
    if u == o {
      assert SeatOf(db, o, u) == Some("OWNER");
      hide SeatOf;
    } else {
      hide SeatOf, OnProjectOf;
      if h :| OnProjectOf(db, o, h) && h.user == u {
        SeatRole(db, o, h);
      } else {
        NoSeat(db, o, u);
      }
    }
  }

  lemma NoSeat(db: Db, o: UserId, u: UserId)
    requires u != o && forall h :: OnProjectOf(db, o, h) ==> h.user != u
    ensures SeatOf(db, o, u).None?
  {
    if SeatOf(db, o, u).Some? {
      var h :| h in AllRows(db.memberships, Owned(db.memberships, db.projects, o)) && h.user == u;
      RowsAreOnProjects(db, o, h);
    }
  }

  /** Roles: the owner is OWNER; anybody else has the strongest role they held on the owner's projects, so none
      they held on this one outranks it. */
  lemma NoRoleWeakens(db: Db, db': Db, i: nat, m: Membership)
    requires WellFormed(db) && Pending(db, db', i)
    requires m in db.memberships && m.project == db.projects[i].id
    ensures OwnerOf(db.memberships, db.projects[i]).Some?
    ensures |db'.projects| == |db.projects| && Reach(db', m.user, db'.projects[i])
    ensures var o := OwnerOf(db.memberships, db.projects[i]).value;
            var role := RoleOf(db', m.user, db'.projects[i]).value;
            && Rank(role) >= Rank(m.role)
            && (forall h :: OnProjectOf(db, o, h) && h.user == m.user ==> Rank(role) >= Rank(h.role))
            && (if o == m.user then role == OWNER else exists h :: OnProjectOf(db, o, h) && h.user == m.user && h.role == role)
  {
    RoleExact(db, db', i, m.user);
    AccessMeansOwner(db.memberships, db.projects[i], m);
    assert db.projects[i] in db.projects;
    SeatRole(db, OwnerOf(db.memberships, db.projects[i]).value, m);
  }

  /** One organization per distinct owner: two projects are grouped together iff they share an owner. */
  lemma OneOrgPerOwner(db: Db, db': Db, i: nat, j: nat)
    requires Pending(db, db', i) && Pending(db, db', j)
    requires OwnerOf(db.memberships, db.projects[i]).Some? && OwnerOf(db.memberships, db.projects[j]).Some?
    ensures |db'.projects| == |db.projects| && db'.projects[i].org.Some? && db'.projects[j].org.Some?
    ensures db'.projects[i].org == db'.projects[j].org <==>
              OwnerOf(db.memberships, db.projects[i]) == OwnerOf(db.memberships, db.projects[j])
  {
    Placed(db, db', i);
    Placed(db, db', j);
    HomeIsThere(db, db.projects[i]);
    HomeIsThere(db, db.projects[j]);
  }

  /** Projects that nobody owns stay outside every organization, and they are those with no billing
      owner and no member. */
  lemma OwnerlessStayOut(db: Db, db': Db, i: nat)
    requires Pending(db, db', i)
    ensures |db'.projects| == |db.projects|
    ensures db'.projects[i].org.None? <==>
              db.projects[i].billingOwner.None? && forall m <- db.memberships :: m.project != db.projects[i].id
  {
    Placed(db, db', i);
    HomeIsThere(db, db.projects[i]);
    OwnerNone(db.memberships, db.projects[i]);
  }

  lemma OwnerNone(ms: seq<Membership>, p: Project)
    ensures OwnerOf(ms, p).None? <==> p.billingOwner.None? && forall m <- ms :: m.project != p.id
  {
    var rows := Rows(ms, p.id);
    if m :| m in ms && m.project == p.id {
      RowsHold(ms, p.id, m);
    }
    if rows != [] { RowsHold(ms, p.id, rows[0]); }
    if OwnersAmong(rows) != [] { OwnersAmongHold(rows, OwnersAmong(rows)[0]); }
  }

  // ---------------------------------------------------------------- idempotence

  lemma {:induction false} NoOwnersLeft(ms: seq<Membership>, ps: seq<Project>)
    requires forall p <- ps :: p.org.None? ==> OwnerOf(ms, p).None?
    ensures Owners(ms, ps) == []
  {
    if ps != [] {
      NoOwnersLeft(ms, ps[..|ps| - 1]);
      assert ps[|ps| - 1] in ps;
    }
  }

  lemma NothingToGroup(db: Db, db': Db)
    requires Backfilled(db, db') && exists p <- db.projects :: p.org.None?
    ensures forall p <- db'.projects :: p.org.None? ==> OwnerOf(db'.memberships, p).None?
  {
    var q :| q in db.projects && q.org.None?;
    var n :| 0 <= n < |db.projects| && db.projects[n] == q;
    Placed(db, db', n);
    forall p <- db'.projects | p.org.None? ensures OwnerOf(db'.memberships, p).None? {
      var i :| 0 <= i < |db'.projects| && db'.projects[i] == p;
      PendingGrouped(db, db', n);
      assert db'.projects[i] == Assigned(db, |Owners(db.memberships, db.projects)|, db.projects[i]);
      Placed(db, db', i);
      HomeIsThere(db, db.projects[i]);
    }
  }

  lemma EmptyRun(db: Db, db': Db)
    requires Grouped(db, 0, db')
    ensures db'.projects == db.projects && db'.memberships == db.memberships
    ensures db'.orgs == db.orgs && db'.orgMembers == db.orgMembers
  {
    forall id ensures Find(db'.orgs, id) == Find(db.orgs, id) {
      assert OrgRow(db, 0, id) == Find(db.orgs, id);
    }
    forall k ensures Find(db'.orgMembers, k) == Find(db.orgMembers, k) {
      assert MemberRow(db, 0, k) == Find(db.orgMembers, k);
    }
    SameMap(db'.orgs, db.orgs);
    SameMap(db'.orgMembers, db.orgMembers);
  }

  lemma SameMap<K(!new), V(!new)>(a: map<K, V>, b: map<K, V>)
    requires forall k :: Find(a, k) == Find(b, k)
    ensures a == b
  {
    forall k ensures k in a <==> k in b { assert Find(a, k) == Find(b, k); }
    forall k | k in a ensures a[k] == b[k] { assert Find(a, k) == Find(b, k); }
  }

  /** A second run changes nothing. */
  lemma SecondRunChangesNothing(db: Db, db': Db, db'': Db)
    requires Backfilled(db, db') && Backfilled(db', db'')
    ensures db'' == db'
  {
    if exists p <- db.projects :: p.org.None? {
      NothingToGroup(db, db');
      NoOwnersLeft(db'.memberships, db'.projects);
      if i: nat :| i < |db'.projects| && db'.projects[i].org.None? {
        PendingGrouped(db', db'', i);
        EmptyRun(db', db'');
        InvitesSettled(db, db', db'');
      }
    }
  }

  /** An invitation that was carried along once is carried to the same place again. */
  lemma InvitesSettled(db: Db, db': Db, db'': Db)
    requires |db'.invites| == |db.invites| && |db''.invites| == |db'.invites|
    requires forall v :: 0 <= v < |db.invites| ==> db'.invites[v] == Carried(db'.projects, db.invites[v])
    requires forall v :: 0 <= v < |db'.invites| ==> db''.invites[v] == Carried(db''.projects, db'.invites[v])
    requires db''.projects == db'.projects
    ensures db''.invites == db'.invites
  {
    forall v | 0 <= v < |db'.invites| ensures db''.invites[v] == db'.invites[v] {
      assert db'.invites[v] == Carried(db'.projects, db.invites[v]);
    }
  }

  // ---------------------------------------------------------------- plans, kinds, invitations

  /** Unlimited if some project has it; else pro if some project has that; else free. */
  predicate PlanOf(ps: seq<Project>, plan: string) {
    && (plan == "unlimited" <==> exists p <- ps :: p.plan == "unlimited")
    && (plan == "pro" <==> (exists p <- ps :: p.plan == "pro") && forall p <- ps :: p.plan != "unlimited")
    && plan in {"unlimited", "pro", "free"}
  }

  /** The plan is the best known plan among the projects. */
  lemma {:induction false} PlanIsBest(ps: seq<Project>)
    ensures BestPlan(ps) in {"free", "pro", "unlimited"}
    ensures forall p <- ps :: PlanRank(p.plan) <= PlanRank(BestPlan(ps))
    ensures BestPlan(ps) == "free" || exists p <- ps :: p.plan == BestPlan(ps)
    ensures PlanOf(ps, BestPlan(ps))
  {
    if ps != [] {
      var before, last := ps[..|ps| - 1], ps[|ps| - 1];
      assert ps == before + [last];
      PlanIsBest(before);
      assert last in ps;
    }
  }

  /** ... so it does not depend on the order of the projects. */
  lemma PlanUnordered(ps: seq<Project>, qs: seq<Project>)
    requires multiset(ps) == multiset(qs)
    ensures BestPlan(ps) == BestPlan(qs)
  {
    PlanIsBest(ps);
    PlanIsBest(qs);
    forall p ensures p in ps <==> p in qs {
      assert p in multiset(ps) <==> p in multiset(qs);
    }
  }

  /** The Stripe ids come together, from the first project that has a customer. */
  lemma {:induction false} PayerIsFirst(ps: seq<Project>, i: nat)
    requires i < |ps| && ps[i].customer != "" && forall j :: 0 <= j < i ==> ps[j].customer == ""
    ensures Payer(ps) == Some(ps[i])
  {
    if i < |ps| - 1 {
      PayerIsFirst(ps[..|ps| - 1], i);
    } else {
      assert forall q <- ps[..|ps| - 1] :: q.customer == "";
    }
  }

  /** The organization drawn up for an owner: named after the first project, on the best plan, with all three
      Stripe fields of the first project that has a customer, or none. */
  lemma OrgMeaning(ms: seq<Membership>, ps: seq<Project>, owner: UserId)
    requires ps != []
    ensures var org := OrgFor(ms, ps, owner);
            && org.name == (if ps[0].name != "" then ps[0].name else "Workspace")
            && (forall p <- ps :: PlanRank(p.plan) <= PlanRank(org.plan))
            && PlanOf(ps, org.plan)
            && ((forall p <- ps :: p.customer == "") ==> org.customer == "" && org.subscription == "" && org.status == "")
    ensures forall i :: 0 <= i < |ps| && ps[i].customer != "" && (forall j :: 0 <= j < i ==> ps[j].customer == "") ==>
              var org := OrgFor(ms, ps, owner);
              org.customer == ps[i].customer && org.subscription == ps[i].subscription && org.status == ps[i].status
  {
    PlanIsBest(ps);
    hide BestPlan, Payer, KindFor;
    forall i | 0 <= i < |ps| && ps[i].customer != "" && (forall j :: 0 <= j < i ==> ps[j].customer == "")
      ensures Payer(ps) == Some(ps[i])
    {
      PayerIsFirst(ps, i);
    }
  }

  /** An account is personal exactly when it is one project on which nobody but the owner has a seat. */
  lemma PersonalExactly(ms: seq<Membership>, ps: seq<Project>, owner: UserId)
    ensures KindFor(ms, ps, owner) == Personal <==>
              |ps| == 1 && forall m <- ms :: m.project == ps[0].id ==> m.user == owner
  {
    var seats := Seats(ms, ps, owner);
    if seats == {owner} {
      forall m <- ms | |ps| == 1 && m.project == ps[0].id ensures m.user == owner {
        AllRowsHold(ms, ps, m);
        assert m.user in seats;
      }
    } else {
      var u :| u in seats && u != owner;
      assert {u, owner} <= seats;
      assert |{u, owner}| == 2;
      if |seats| == 1 { CardSubset({u, owner}, seats); }
      var m :| m in AllRows(ms, ps) && m.user == u;
      AllRowsHold(ms, ps, m);
    }
  }

  lemma {:induction false} LookupById(ps: seq<Project>, i: nat)
    requires i < |ps| && forall j, k :: 0 <= j < k < |ps| ==> ps[j].id != ps[k].id
    ensures OrgOfProject(ps, ps[i].id) == ps[i].org
  {
    if i > 0 { LookupById(ps[1..], i - 1); }
  }

  /** Pending invitations are carried along even into personal accounts: an invitation without an
      organization lands in a personal one exactly when its project is the only project of its owner and
      nobody else has a seat on it. */
  lemma InviteIntoPersonal(db: Db, db': Db, v: nat, i: nat)
    requires WellFormed(db) && Pending(db, db', i) && v < |db.invites|
    requires db.invites[v].org.None? && db.invites[v].project == Some(db.projects[i].id)
    ensures |db'.invites| == |db.invites|
    ensures var o := OwnerOf(db.memberships, db.projects[i]);
            IntoPersonal(db', db'.invites[v]) <==>
              && o.Some? && |Owned(db.memberships, db.projects, o.value)| == 1
              && forall m <- db.memberships :: m.project == db.projects[i].id ==> m.user == o.value
  {
    PendingGrouped(db, db', i);
    CarriedTo(db, db', v, i);
    HomeIsThere(db, db.projects[i]);
    var o := OwnerOf(db.memberships, db.projects[i]);
    if o.Some? {
      AccountOf(db, db', i, o.value);
      assert db.projects[i] in db.projects;
      OwnedHold(db.memberships, db.projects, o.value, db.projects[i]);
      PersonalAt(db.memberships, Owned(db.memberships, db.projects, o.value), o.value, db.projects[i]);
    } else {
      Placed(db, db', i);
    }
  }

  /** The invitation leads into a personal account. */
  predicate IntoPersonal(db: Db, v: Invite) {
    v.org.Some? && v.org.value in db.orgs && db.orgs[v.org.value].kind == Personal
  }

  lemma PersonalAt(ms: seq<Membership>, ps: seq<Project>, o: UserId, p: Project)
    requires p in ps
    ensures KindFor(ms, ps, o) == Personal <==> |ps| == 1 && forall m <- ms :: m.project == p.id ==> m.user == o
  {
    PersonalExactly(ms, ps, o);
    hide KindFor;
    assert |ps| == 1 ==> ps[0] == p;
  }

  lemma CarriedTo(db: Db, db': Db, v: nat, i: nat)
    requires WellFormed(db) && Pending(db, db', i) && v < |db.invites|
    requires db.invites[v].org.None? && db.invites[v].project == Some(db.projects[i].id)
    ensures |db'.invites| == |db.invites| && |db'.projects| == |db.projects|
    ensures db'.invites[v] == db.invites[v].(org := db'.projects[i].org)
  {
    PendingGrouped(db, db', i);
    forall j | 0 <= j < |db.projects| ensures db'.projects[j].id == db.projects[j].id {
      assert db'.projects[j] == Assigned(db, |Owners(db.memberships, db.projects)|, db.projects[j]);
    }
    LookupById(db'.projects, i);
    assert db'.invites[v] == Carried(db'.projects, db.invites[v]);
  }

  /** An invitation that has an organization, or names no project, stays as it is; the rest keep all but that. */
  lemma InvitesKept(db: Db, db': Db, v: nat)
    requires Backfilled(db, db') && v < |db.invites|
    ensures |db'.invites| == |db.invites|
    ensures db.invites[v].org.Some? || db.invites[v].project.None? ==> db'.invites[v] == db.invites[v]
    ensures db'.invites[v].(org := db.invites[v].org) == db.invites[v]
  {
    if exists p <- db.projects :: p.org.None? {
      assert db'.invites[v] == Carried(db'.projects, db.invites[v]);
    }
    hide Grouped;
  }

  /** The account a project lands in is the one drawn up for its owner from all of the owner's projects. */
  lemma AccountOf(db: Db, db': Db, i: nat, o: UserId)
    requires WellFormed(db) && Pending(db, db', i) && OwnerOf(db.memberships, db.projects[i]) == Some(o)
    ensures |db'.projects| == |db.projects| && db'.projects[i].org.Some?
    ensures Find(db'.orgs, db'.projects[i].org.value) ==
              Some(OrgFor(db.memberships, Owned(db.memberships, db.projects, o), o))
  {
    PendingGrouped(db, db', i);
    HomeIsThere(db, db.projects[i]);
    Placed(db, db', i);
    hide Backfilled, Home, MemberRow, Owners, OwnerOf, Assigned, OrgFor, Owned;
    var id := db'.projects[i].org.value;
    assert Find(db'.orgs, id) == OrgRow(db, |Owners(db.memberships, db.projects)|, id);
  }

  // ---------------------------------------------------------------- agreement with migration 0022

  /** `ORDER BY CASE WHEN role = 'OWNER' THEN 0 ELSE 1 END, created_at, id`. */
  predicate Before0022(a: Membership, b: Membership) {
    var ca, cb := if a.role == OWNER then 0 else 1, if b.role == OWNER then 0 else 1;
    ca < cb || (ca == cb && a.key < b.key)
  }

  /** `LIMIT 1` under that order, among the project's memberships. */
  ghost predicate Chosen0022(ms: seq<Membership>, p: ProjectId, m: Membership) {
    m in ms && m.project == p && forall x <- ms :: x.project == p && x != m ==> Before0022(m, x)
  }

  ghost predicate ByKey(ms: seq<Membership>) {
    forall i, j :: 0 <= i < j < |ms| ==> ms[i].key < ms[j].key
  }

  lemma {:induction false} RowsByKey(ms: seq<Membership>, p: ProjectId)
    requires ByKey(ms)
    ensures ByKey(Rows(ms, p))
  {
    if ms != [] {
      var before := ms[..|ms| - 1];
      RowsByKey(before, p);
      forall m <- Rows(before, p) ensures m.key < ms[|ms| - 1].key {
        RowsHold(before, p, m);
      }
    }
  }

  lemma {:induction false} OwnersByKey(rows: seq<Membership>)
    requires ByKey(rows)
    ensures ByKey(OwnersAmong(rows))
  {
    if rows != [] {
      OwnersByKey(rows[1..]);
      forall m <- OwnersAmong(rows[1..]) ensures rows[0].key < m.key {
        OwnersAmongHold(rows[1..], m);
      }
    }
  }

  /** For a project without a billing owner, filtering owners and taking the head is 0022's ordered
      choice; there is a choice exactly when the project has a member. */
  lemma OwnerOfIs0022(ms: seq<Membership>, p: Project)
    requires ByKey(ms) && p.billingOwner.None?
    ensures OwnerOf(ms, p).None? <==> forall m <- ms :: m.project != p.id
    ensures OwnerOf(ms, p).Some? ==> exists m :: Chosen0022(ms, p.id, m) && OwnerOf(ms, p) == Some(m.user)
    ensures forall m :: Chosen0022(ms, p.id, m) ==> OwnerOf(ms, p) == Some(m.user)
  {
    OwnerNone(ms, p);
    var rows := Rows(ms, p.id);
    if rows != [] {
      var pick := if OwnersAmong(rows) != [] then OwnersAmong(rows)[0] else rows[0];
      PickIsFirst(ms, p.id);
      forall m | Chosen0022(ms, p.id, m) ensures m == pick {
        assert Chosen0022(ms, p.id, pick);
      }
    }
    forall m <- ms | m.project == p.id ensures rows != [] {
      RowsHold(ms, p.id, m);
    }
  }

  lemma PickIsFirst(ms: seq<Membership>, p: ProjectId)
    requires ByKey(ms) && Rows(ms, p) != []
    ensures var rows := Rows(ms, p);
            Chosen0022(ms, p, if OwnersAmong(rows) != [] then OwnersAmong(rows)[0] else rows[0])
  {
    var rows := Rows(ms, p);
    var owners := OwnersAmong(rows);
    RowsByKey(ms, p);
    OwnersByKey(rows);
    var pick := if owners != [] then owners[0] else rows[0];
    OwnersAmongHold(rows, pick);
    RowsHold(ms, p, pick);
    assert owners == [] ==> pick in rows;
    hide Rows, OwnersAmong;
    forall x <- ms | x.project == p && x != pick ensures Before0022(pick, x) {
      RowsHold(ms, p, x);
      OwnersAmongHold(rows, x);
      if owners == [] { OwnersAmongHold(rows, pick); }
    }
  }

  /** Running 0022 first, which fills in the billing owner, does not change whom 0023 picks. */
  lemma OwnerSurvives0022(ms: seq<Membership>, p: Project, m: Membership)
    requires ByKey(ms) && p.billingOwner.None? && Chosen0022(ms, p.id, m)
    ensures OwnerOf(ms, p.(billingOwner := Some(m.user))) == OwnerOf(ms, p)
  {
    OwnerOfIs0022(ms, p);
  }
}
