/** The tables the migration hands over are tables the account operations keep sound, but for one thing: a
    pending invitation it carries into a personal account. */
module MigrationSound {
  import opened Prelude
  import opened BackfillSpec
  import opened BackfillTheorems
  import A = AccountsSpec
  import Access = AccountsAccess
  import Inv = AccountsInvariants

  // ---------------------------------------------------------------- the migrated tables as the operations see them

  function AsKind(k: Kind): A.Kind { if k == Personal then A.Personal else A.Company }

  function AsProject(p: Project): A.Project { A.Project(p.id, p.created, p.org) }

  function AsStatus(s: Status): A.Status {
    match s case PENDING => A.PENDING case ACCEPTED => A.ACCEPTED case REVOKED => A.REVOKED
  }

  function AsProjects(ps: seq<Project>): (r: seq<A.Project>)
    ensures |r| == |ps|
    ensures forall i :: 0 <= i < |ps| ==> r[i] == AsProject(ps[i])
  {
    seq(|ps|, i requires 0 <= i < |ps| => AsProject(ps[i]))
  }

  /** Invitations are named by their row; one that stayed without an organization can never be accepted and is
      not among them. */
  function AsWorld(users: map<UserId, string>, db: Db): A.World {
    A.World(
      users,
      map o | o in db.orgs :: A.Org(AsKind(db.orgs[o].kind), db.orgs[o].plan),
      db.orgMembers,
      AsProjects(db.projects),
      map t: nat | t < |db.invites| && db.invites[t].org.Some? ::
        A.Invite(db.invites[t].org.value, db.invites[t].email, db.invites[t].role, db.invites[t].expires,
                 AsStatus(db.invites[t].status), db.invites[t].project))
  }

  // ---------------------------------------------------------------- before the migration

  /** Organizations do not exist yet, every reference resolves, and projects are listed in order. */
  ghost predicate Before(users: map<UserId, string>, db: Db) {
    && WellFormed(db) && db.orgs == map[] && Access.Ordered(AsProjects(db.projects))
    && (forall m <- db.memberships :: m.user in users)
    && (forall p <- db.projects :: p.billingOwner.Some? ==> p.billingOwner.value in users)
    && (forall v <- db.invites :: v.org.None? && (v.project.Some? ==> exists p <- db.projects :: p.id == v.project.value))
  }

  /** The invitation is still pending, and its project is the only one of an owner with whom nobody shares it. */
  ghost predicate Strays(db: Db, v: Invite) {
    v.status == PENDING && v.project.Some? &&
    exists p <- db.projects :: p.id == v.project.value && AloneWith(db, p)
  }

  ghost predicate AloneWith(db: Db, p: Project) {
    var o := OwnerOf(db.memberships, p);
    && o.Some? && |Owned(db.memberships, db.projects, o.value)| == 1
    && forall m <- db.memberships :: m.project == p.id ==> m.user == o.value
  }

  lemma AllOrgless(users: map<UserId, string>, db: Db, i: nat)
    requires Before(users, db) && i < |db.projects|
    ensures db.projects[i].org.None?
  {
    assert db.projects[i] in db.projects;
  }

  lemma OwnerIsUser(users: map<UserId, string>, db: Db, p: Project)
    requires Before(users, db) && p in db.projects && OwnerOf(db.memberships, p).Some?
    ensures OwnerOf(db.memberships, p).value in users
  {
    var rows := Rows(db.memberships, p.id);
    if p.billingOwner.None? {
      var m := if OwnersAmong(rows) != [] then OwnersAmong(rows)[0] else rows[0];
      OwnersAmongHold(rows, m);
      RowsHold(db.memberships, p.id, m);
    }
  }

  /** Nothing to migrate: no projects, so no organizations at all. */
  lemma NothingSound(users: map<UserId, string>, db: Db)
    requires Before(users, db) && db.projects == []
    ensures Inv.Sound(AsWorld(users, db))
  {
    var w := AsWorld(users, db);
    assert w.invites == map[] by {
      forall v <- db.invites ensures v.org.None? {}
      assert forall t: nat :: t < |db.invites| ==> db.invites[t] in db.invites;
    }
    forall k ensures Inv.MemberSound(w, k) {}
    forall t ensures Inv.InviteSound(w, t) {}
  }

  // ---------------------------------------------------------------- the new organizations

  function OwnerList(db: Db): seq<UserId> { Owners(db.memberships, db.projects) }

  function ProjectsOf(db: Db, o: UserId): seq<Project> { Owned(db.memberships, db.projects, o) }

  /** The migration had projects to group. */
  ghost predicate Migrated(users: map<UserId, string>, db: Db, db': Db) {
    Before(users, db) && Backfilled(db, db') && db.projects != []
  }

  lemma MigratedGrouped(users: map<UserId, string>, db: Db, db': Db)
    requires Migrated(users, db, db')
    ensures Grouped(db, |OwnerList(db)|, db') && |db'.invites| == |db.invites| && |db'.projects| == |db.projects|
    ensures forall i :: 0 <= i < |db.projects| ==> Pending(db, db', i)
  {
    forall i | 0 <= i < |db.projects| ensures Pending(db, db', i) { AllOrgless(users, db, i); }
    PendingGrouped(db, db', 0);
  }

  lemma GroupedIds(db: Db, db': Db, o: OrgId)
    requires Grouped(db, |OwnerList(db)|, db') && db.orgs == map[]
    ensures o in db'.orgs <==> db.nextOrg <= o < db.nextOrg + |OwnerList(db)|
    ensures o in db'.orgs ==>
              var owner := OwnerList(db)[o - db.nextOrg];
              db'.orgs[o] == OrgFor(db.memberships, ProjectsOf(db, owner), owner)
  {
    hide OrgFor, Owners, Owned, MemberRow, Assigned;
    assert Find(db'.orgs, o) == OrgRow(db, |OwnerList(db)|, o);
  }

  /** The ids of the organizations afterwards are those handed out, one per owner. */
  lemma OrgIds(users: map<UserId, string>, db: Db, db': Db, o: OrgId)
    requires Migrated(users, db, db')
    ensures o in db'.orgs <==> db.nextOrg <= o < db.nextOrg + |OwnerList(db)|
    ensures o in db'.orgs ==>
              var owner := OwnerList(db)[o - db.nextOrg];
              db'.orgs[o] == OrgFor(db.memberships, ProjectsOf(db, owner), owner)
  {
    MigratedGrouped(users, db, db');
    hide Grouped, Backfilled, OwnerList, ProjectsOf, OrgFor;
    GroupedIds(db, db', o);
  }

  /** Each owner has a project, and it went into the organization at the owner's position. */
  lemma OwnerHasProject(users: map<UserId, string>, db: Db, db': Db, x: nat) returns (i: nat)
    requires Migrated(users, db, db') && x < |OwnerList(db)|
    ensures i < |db.projects| && |db'.projects| == |db.projects| && db.projects[i] in ProjectsOf(db, OwnerList(db)[x])
    ensures db'.projects[i].org == Some(db.nextOrg + x)
  {
    var owner := OwnerList(db)[x];
    OwnersOwn(db.memberships, db.projects, owner);
    var p := ProjectsOf(db, owner)[0];
    OwnedHold(db.memberships, db.projects, owner, p);
    i :| 0 <= i < |db.projects| && db.projects[i] == p;
    PlacedAt(users, db, db', i, x);
  }

  /** A project is in the organization at position `x` exactly when that owner owns it. */
  lemma PlacedAt(users: map<UserId, string>, db: Db, db': Db, i: nat, x: nat)
    requires Migrated(users, db, db') && i < |db.projects| && x < |OwnerList(db)|
    ensures |db'.projects| == |db.projects| && db'.projects[i] == db.projects[i].(org := db'.projects[i].org)
    ensures db'.projects[i].org == Some(db.nextOrg + x) <==> db.projects[i] in ProjectsOf(db, OwnerList(db)[x])
  {
    MigratedGrouped(users, db, db');
    hide Migrated, Grouped, Backfilled, Home, OwnerList, ProjectsOf;
    Placed(db, db', i);
    AllOrgless(users, db, i);
    HomeMeansOwned(db, db.projects[i], x);
  }

  lemma HomeMeansOwned(db: Db, p: Project, x: nat)
    requires p in db.projects && p.org.None? && x < |OwnerList(db)|
    ensures Home(db, p) == Some(x) <==> p in ProjectsOf(db, OwnerList(db)[x])
  {
    OwnedHold(db.memberships, db.projects, OwnerList(db)[x], p);
    HomeIsThere(db, p);
    OwnersDistinct(db.memberships, db.projects);
    hide Home, Owned, OwnerOf, Owners;
  }

  /** Every organization a project is in exists, at the position of its owner. */
  lemma PlacedSomewhere(users: map<UserId, string>, db: Db, db': Db, i: nat)
    requires Migrated(users, db, db') && i < |db.projects|
    ensures |db'.projects| == |db.projects| && (db'.projects[i].org.Some? ==> db'.projects[i].org.value in db'.orgs)
  {
    MigratedGrouped(users, db, db');
    Placed(db, db', i);
    assert db.projects[i] in db.projects;
    HomeIsThere(db, db.projects[i]);
    if db'.projects[i].org.Some? { OrgIds(users, db, db', db'.projects[i].org.value); }
    hide Migrated, Grouped, Backfilled, Pending, Home, OwnerOf, Owners;
  }

  lemma MembersAre(users: map<UserId, string>, db: Db, db': Db, o: OrgId, u: UserId)
    requires Migrated(users, db, db')
    ensures (o, u) in db'.orgMembers ==> o in db'.orgs
    ensures o in db'.orgs ==> db.nextOrg <= o < db.nextOrg + |OwnerList(db)|
    ensures o in db'.orgs ==> Find(db'.orgMembers, (o, u)) == SeatOf(db, OwnerList(db)[o - db.nextOrg], u)
  {
    MigratedGrouped(users, db, db');
    OrgIds(users, db, db', o);
    hide Grouped, Migrated, Before, Backfilled, Owners, SeatOf, OrgFor;
    if o in db'.orgs { MemberAt(db, db', o - db.nextOrg, u); }
    if (o, u) in db'.orgMembers { MemberInRange(users, db, db', o, u); }
  }

  lemma MemberInRange(users: map<UserId, string>, db: Db, db': Db, o: OrgId, u: UserId)
    requires Migrated(users, db, db') && (o, u) in db'.orgMembers
    ensures db.nextOrg <= o < db.nextOrg + |OwnerList(db)|
  {
    MigratedGrouped(users, db, db');
    hide Backfilled, Owners, SeatOf, OrgFor, OrgRow, Assigned;
    assert Find(db'.orgMembers, (o, u)) == MemberRow(db, |OwnerList(db)|, (o, u));
    assert (o, u) !in db.orgMembers;
  }

  lemma SeatsAreUsers(users: map<UserId, string>, db: Db, owner: UserId, u: UserId)
    requires Before(users, db) && owner in OwnerList(db) && SeatOf(db, owner, u).Some?
    ensures u in users
  {
    SeatsAreOfOwner(db, u, owner);
    if u == owner {
      OwnersOwn(db.memberships, db.projects, owner);
      var p := ProjectsOf(db, owner)[0];
      OwnedHold(db.memberships, db.projects, owner, p);
      OwnerIsUser(users, db, p);
    }
  }

  lemma OwnersSeat(db: Db, owner: UserId)
    ensures SeatOf(db, owner, owner) == Some(OWNER)
  {
  }

  // ---------------------------------------------------------------- the parts of soundness

  lemma MembersExist(users: map<UserId, string>, db: Db, db': Db, o: OrgId, u: UserId)
    requires Migrated(users, db, db') && (o, u) in db'.orgMembers
    ensures o in db'.orgs && u in users
  {
    MembersAre(users, db, db', o, u);
    hide Backfilled, Before, SeatOf, OwnerList;
    SeatsAreUsers(users, db, OwnerList(db)[o - db.nextOrg], u);
  }

  lemma MembersSound(users: map<UserId, string>, db: Db, db': Db, k: (OrgId, UserId))
    requires Migrated(users, db, db')
    ensures Inv.MemberSound(AsWorld(users, db'), k)
  {
    hide Migrated;
    if k in db'.orgMembers { MembersExist(users, db, db', k.0, k.1); }
  }

  lemma OwnerHolds(users: map<UserId, string>, db: Db, db': Db, o: OrgId)
    requires Migrated(users, db, db') && o in db'.orgs
    ensures db.nextOrg <= o < db.nextOrg + |OwnerList(db)|
    ensures Find(db'.orgMembers, (o, OwnerList(db)[o - db.nextOrg])) == Some(OWNER)
  {
    hide Migrated, OwnerList, SeatOf;
    OrgIds(users, db, db', o);
    var owner := OwnerList(db)[o - db.nextOrg];
    MembersAre(users, db, db', o, owner);
    OwnersSeat(db, owner);
  }

  lemma OrgSoundWith(w: A.World, o: OrgId, i: nat, owner: UserId)
    requires i < |w.projects| && w.projects[i].org == Some(o)
    requires (o, owner) in w.members && w.members[(o, owner)] == "OWNER"
    ensures Inv.OrgSound(w, o)
  {
    assert w.projects[i] in w.projects;
  }

  lemma OrgsSound(users: map<UserId, string>, db: Db, db': Db, o: OrgId)
    requires Migrated(users, db, db')
    ensures Inv.OrgSound(AsWorld(users, db'), o)
  {
    hide Migrated, OwnerList, ProjectsOf, Inv.OrgSound;
    if o in db'.orgs {
      OrgIds(users, db, db', o);
      var i := OwnerHasProject(users, db, db', o - db.nextOrg);
      OwnerHolds(users, db, db', o);
      OrgSoundWith(AsWorld(users, db'), o, i, OwnerList(db)[o - db.nextOrg]);
    } else {
      NoOrg(AsWorld(users, db'), o);
    }
  }

  lemma NoOrg(w: A.World, o: OrgId)
    requires o !in w.orgs
    ensures Inv.OrgSound(w, o)
  {
  }

  lemma ProjectsStaySound(users: map<UserId, string>, db: Db, db': Db)
    requires Migrated(users, db, db')
    ensures Inv.ProjectsSound(AsWorld(users, db'))
  {
    MigratedGrouped(users, db, db');
    var w := AsWorld(users, db');
    forall i | 0 <= i < |db.projects|
      ensures w.projects[i] == A.Project(db.projects[i].id, db.projects[i].created, db'.projects[i].org)
      ensures w.projects[i].org.Some? ==> w.projects[i].org.value in w.orgs
    {
      PlacedSomewhere(users, db, db', i);
      Placed(db, db', i);
    }
    var ps := AsProjects(db.projects);
    assert forall i :: 0 <= i < |ps| ==> ps[i].id == w.projects[i].id && ps[i].created == w.projects[i].created;
    hide Migrated, Grouped, Pending;
  }

  /** Where an invitation ends up: with the project it names, or nowhere. */
  lemma InviteLands(users: map<UserId, string>, db: Db, db': Db, v: nat) returns (i: nat)
    requires Migrated(users, db, db') && v < |db.invites| && |db'.invites| == |db.invites| && db.invites[v].project.Some?
    ensures i < |db.projects| && |db'.projects| == |db.projects| && db.projects[i].id == db.invites[v].project.value
    ensures db'.invites[v] == db.invites[v].(org := db'.projects[i].org)
  {
    assert db.invites[v] in db.invites;
    var p :| p in db.projects && p.id == db.invites[v].project.value;
    i :| 0 <= i < |db.projects| && db.projects[i] == p;
    MigratedGrouped(users, db, db');
    CarriedTo(db, db', v, i);
  }

  lemma InviteNowhere(users: map<UserId, string>, db: Db, db': Db, v: nat)
    requires Migrated(users, db, db') && v < |db.invites| && |db'.invites| == |db.invites| && db.invites[v].project.None?
    ensures db'.invites[v] == db.invites[v] && db.invites[v].org.None?
  {
    assert db.invites[v] in db.invites;
    MigratedGrouped(users, db, db');
    PendingGrouped(db, db', 0);
    hide Grouped, Backfilled;
    assert db'.invites[v] == Carried(db'.projects, db.invites[v]);
  }

  lemma InvitesSound(users: map<UserId, string>, db: Db, db': Db, t: A.Token)
    requires Migrated(users, db, db')
    ensures Inv.InviteSound(AsWorld(users, db'), t)
  {
    var w := AsWorld(users, db');
    if t in w.invites {
      MigratedGrouped(users, db, db');
      if db.invites[t].project.None? {
        InviteNowhere(users, db, db', t);
      } else {
        var i := InviteLands(users, db, db', t);
        PlacedSomewhere(users, db, db', i);
        Placed(db, db', i);
        hide Migrated, Grouped, Pending, Home;
        assert w.projects[i] in w.projects && w.projects[i].org == Some(w.invites[t].org);
      }
    }
  }

  /** The account of an owner is personal exactly when the owner is alone with one project. */
  lemma PersonalAccount(users: map<UserId, string>, db: Db, db': Db, o: OrgId)
    requires Migrated(users, db, db') && o in db'.orgs
    ensures db.nextOrg <= o < db.nextOrg + |OwnerList(db)|
    ensures var owner := OwnerList(db)[o - db.nextOrg];
            var ps := ProjectsOf(db, owner);
            db'.orgs[o].kind == Personal <==> |ps| == 1 && forall m <- db.memberships :: m.project == ps[0].id ==> m.user == owner
  {
    OrgIds(users, db, db', o);
    var owner := OwnerList(db)[o - db.nextOrg];
    PersonalExactly(db.memberships, ProjectsOf(db, owner), owner);
    hide KindFor, Payer, BestPlan, Owned, Owners, Migrated;
  }

  lemma PersonalMembers(users: map<UserId, string>, db: Db, db': Db, o: OrgId, u: UserId)
    requires Migrated(users, db, db') && o in db'.orgs && db'.orgs[o].kind == Personal && (o, u) in db'.orgMembers
    ensures db.nextOrg <= o < db.nextOrg + |OwnerList(db)| && u == OwnerList(db)[o - db.nextOrg]
  {
    PersonalAccount(users, db, db', o);
    MembersAre(users, db, db', o, u);
    hide Migrated, SeatOf, Owners, Owned;
    AloneSeat(db, OwnerList(db)[o - db.nextOrg], u);
  }

  lemma AloneSeat(db: Db, owner: UserId, u: UserId)
    requires |ProjectsOf(db, owner)| == 1 && SeatOf(db, owner, u).Some?
    requires forall m <- db.memberships :: m.project == ProjectsOf(db, owner)[0].id ==> m.user == owner
    ensures u == owner
  {
    SeatsAreOfOwner(db, u, owner);
    hide SeatOf, Owned;
    if OfOwner(db, u, owner) && u != owner {
      var q :| q in db.projects && q.org.None? && OwnerOf(db.memberships, q) == Some(owner) && HadAccess(db, u, q);
      OwnedHold(db.memberships, db.projects, owner, q);
      OnlyOne(ProjectsOf(db, owner), q);
    }
  }

  lemma OnlyOne(ps: seq<Project>, p: Project)
    requires |ps| == 1 && p in ps
    ensures p == ps[0]
  {
  }

  lemma Alone(db: Db, owner: UserId, p: Project)
    requires p in ProjectsOf(db, owner) && |ProjectsOf(db, owner)| == 1
    requires forall m <- db.memberships :: m.project == ProjectsOf(db, owner)[0].id ==> m.user == owner
    ensures p in db.projects && AloneWith(db, p)
  {
    OwnedHold(db.memberships, db.projects, owner, p);
    hide Owned, OwnerOf;
    assert p == ProjectsOf(db, owner)[0];
  }

  /** An invitation that lands in an organization named a project of its owner. */
  lemma LandedOwned(users: map<UserId, string>, db: Db, db': Db, x: nat, t: nat) returns (i: nat)
    requires Migrated(users, db, db') && x < |OwnerList(db)|
    requires t < |db'.invites| && db'.invites[t].org == Some(db.nextOrg + x)
    ensures t < |db.invites| && db.invites[t].status == db'.invites[t].status && i < |db.projects|
    ensures db.invites[t].project == Some(db.projects[i].id) && db.projects[i] in ProjectsOf(db, OwnerList(db)[x])
  {
    MigratedGrouped(users, db, db');
    hide Grouped, Backfilled, Before, OwnerList, ProjectsOf;
    if db.invites[t].project.None? { InviteNowhere(users, db, db', t); }
    i := InviteLands(users, db, db', t);
    PlacedAt(users, db, db', i, x);
  }

  /** An invitation that lands in a personal account named the project its owner is alone with. */
  lemma LandedStrays(users: map<UserId, string>, db: Db, db': Db, o: OrgId, t: nat)
    requires Migrated(users, db, db') && o in db'.orgs && db'.orgs[o].kind == Personal
    requires t < |db'.invites| && db'.invites[t].org == Some(o) && db'.invites[t].status == PENDING
    ensures exists v <- db.invites :: Strays(db, v)
  {
    hide Migrated, OwnerList, ProjectsOf, AloneWith;
    PersonalAccount(users, db, db', o);
    var i := LandedOwned(users, db, db', o - db.nextOrg, t);
    Alone(db, OwnerList(db)[o - db.nextOrg], db.projects[i]);
    assert Strays(db, db.invites[t]) && db.invites[t] in db.invites;
  }

  lemma PersonalSolo(users: map<UserId, string>, db: Db, db': Db, o: OrgId)
    requires Migrated(users, db, db') && o in db'.orgs && db'.orgs[o].kind == Personal
    requires forall v <- db.invites :: !Strays(db, v)
    ensures Inv.Solo(AsWorld(users, db'), o)
  {
    var w := AsWorld(users, db');
    OrgIds(users, db, db', o);
    var owner := OwnerList(db)[o - db.nextOrg];
    MembersAre(users, db, db', o, owner);
    OwnersSeat(db, owner);
    forall u | (o, u) in w.members ensures u == owner { PersonalMembers(users, db, db', o, u); }
    forall t ensures t !in A.Pending(w, o) {
      if t in A.Pending(w, o) { LandedStrays(users, db, db', o, t); }
    }
    hide Migrated, SeatOf, Owners, OrgFor;
    assert (o, owner) in w.members && w.members[(o, owner)] == "OWNER";
  }

  /** A pending invitation that strays leaves its personal account with an invitation outstanding. */
  lemma StrayLands(users: map<UserId, string>, db: Db, db': Db, t: nat)
    requires Migrated(users, db, db') && t < |db.invites| && Strays(db, db.invites[t])
    ensures |db'.invites| == |db.invites| && IntoPersonal(db', db'.invites[t]) && db'.invites[t].status == PENDING
  {
    var v := db.invites[t];
    var p :| p in db.projects && p.id == v.project.value && AloneWith(db, p);
    var i :| 0 <= i < |db.projects| && db.projects[i] == p;
    assert v in db.invites;
    MigratedGrouped(users, db, db');
    hide Grouped, Backfilled, Owned, OwnerOf, IntoPersonal;
    InviteIntoPersonal(db, db', t, i);
    CarriedTo(db, db', t, i);
  }

  lemma StrayUnsound(users: map<UserId, string>, db: Db, t: nat)
    requires t < |db.invites| && IntoPersonal(db, db.invites[t]) && db.invites[t].status == PENDING
    ensures !Inv.Sound(AsWorld(users, db))
  {
    var w := AsWorld(users, db);
    assert t in w.invites && t in A.Pending(w, db.invites[t].org.value);
    hide AsWorld, Inv.Sound;
    PendingInPersonal(w, t);
  }

  lemma PendingInPersonal(w: A.World, t: A.Token)
    requires t in w.invites && t in A.Pending(w, w.invites[t].org)
    requires w.invites[t].org in w.orgs && w.orgs[w.invites[t].org].kind == A.Personal
    ensures !Inv.Sound(w)
  {
    if Inv.Sound(w) {
      Inv.PendingMeansCompany(w, t);
      assert false;
    }
  }

  lemma MigratedSound(users: map<UserId, string>, db: Db, db': Db)
    requires Migrated(users, db, db') && forall v <- db.invites :: !Strays(db, v)
    ensures Inv.Sound(AsWorld(users, db'))
  {
    var w := AsWorld(users, db');
    hide Migrated, Strays, AsWorld;
    forall k ensures Inv.MemberSound(w, k) { MembersSound(users, db, db', k); }
    forall t ensures Inv.InviteSound(w, t) { InvitesSound(users, db, db', t); }
    forall o ensures Inv.OrgSound(w, o) { OrgsSound(users, db, db', o); }
    ProjectsStaySound(users, db, db');
    forall o | o in w.orgs && w.orgs[o].kind == A.Personal ensures Inv.Solo(w, o) {
      OrgsAgree(users, db', o);
      PersonalSolo(users, db, db', o);
    }
    if o :| o in w.orgs {
      assert Inv.OrgSound(w, o);
      var u :| (o, u) in w.members;
      assert Inv.MemberSound(w, (o, u));
    }
  }

  lemma OrgsAgree(users: map<UserId, string>, db: Db, o: OrgId)
    requires o in AsWorld(users, db).orgs
    ensures o in db.orgs && AsWorld(users, db).orgs[o].kind == AsKind(db.orgs[o].kind)
  {
  }

  lemma EarlyReturn(users: map<UserId, string>, db: Db, db': Db)
    requires Before(users, db) && Backfilled(db, db') && db.projects == []
    ensures db' == db && forall v <- db.invites :: !Strays(db, v)
  {
    hide Grouped;
  }

  /** What the migration leaves is sound, so that every promise about runs of the account operations holds from
      there on, exactly when no pending invitation names a project its owner is alone with. */
  lemma MigrationIsSound(users: map<UserId, string>, db: Db, db': Db)
    requires Before(users, db) && Backfilled(db, db')
    ensures Inv.Sound(AsWorld(users, db')) <==> forall v <- db.invites :: !Strays(db, v)
  {
    hide Backfilled, Before, Strays, Inv.Sound, AsWorld;
    if db.projects == [] {
      EarlyReturn(users, db, db');
      NothingSound(users, db);
    } else if forall v <- db.invites :: !Strays(db, v) {
      MigratedSound(users, db, db');
    } else {
      var v :| v in db.invites && Strays(db, v);
      var t :| 0 <= t < |db.invites| && db.invites[t] == v;
      StrayLands(users, db, db', t);
      StrayUnsound(users, db', t);
    }
  }
}
