/** `upsert_clerk_principal`: user, organization, workspace and membership from verified Clerk claims.
    Rows are appended to their tables and identified by position; that no key is ever entered twice is a
    theorem here, not an assumption of the representation. */
module ClerkUpsert {
  import opened Prelude

  type Role = string

  /** `org` is the claim as received; an empty one counts as absent. */
  datatype Claims = Claims(user: string, org: Option<string>, role: Role)

  datatype Kind = Personal | Company

  datatype Account = Account(slug: string, kind: Kind)

  datatype Space = Space(ext: string, slug: string, org: Option<nat>)

  datatype Seat = Seat(user: nat, org: nat, role: Role)

  datatype Tables = Tables(users: seq<string>, orgs: seq<Account>, spaces: seq<Space>, seats: seq<Seat>)

  const EMPTY := Tables([], [], [], [])

  datatype Principal = Principal(project: nat, user: nat, role: Role, org: nat)

  /** `NoResultFound`: the insert clashed, and the row looked for afterwards is not there. */
  datatype Failure = NoRow

  type Outcome = Result<(Tables, Principal), Failure>

  function InOrg(c: Claims): bool { c.org.Some? && c.org.value != "" }

  /** The external id of the workspace. */
  function Ext(c: Claims): string {
    if InOrg(c) then c.org.value else "user:" + c.user
  }

  const SLUG_MAX := 128

  /** The organization's and the workspace's slug, cut to the column's width. */
  function Slug(ext: string): string {
    var s := "clerk-" + ext;
    if |s| <= SLUG_MAX then s else s[..SLUG_MAX]
  }

  /** The keys of an upsert: the organization claimed, or else the user's own id marked as such; and the first 128
      characters of that after "clerk-". */
  lemma KeysExactly(c: Claims)
    ensures Ext(c) == match c.org case None => "user:" + c.user case Some(o) => if o == "" then "user:" + c.user else o
    ensures var slug, whole := Slug(Ext(c)), "clerk-" + Ext(c);
            slug <= whole && |slug| <= 128 && (|slug| < |whole| ==> |slug| == 128)
  {
  }

  // ---------------------------------------------------------------- one select

  function First<T(!new)>(rows: seq<T>, p: T -> bool): (i: Option<nat>)
    ensures i.Some? ==> i.value < |rows| && p(rows[i.value]) && forall j :: 0 <= j < i.value ==> !p(rows[j])
    ensures i.None? ==> forall j :: 0 <= j < |rows| ==> !p(rows[j])
  {
    if rows == [] then None
    else if p(rows[0]) then Some(0)
    else
      var rest := First(rows[1..], p);
      if rest.Some? then Some(rest.value + 1) else None
  }

  function UserAt(users: seq<string>, user: string): (i: Option<nat>)
    ensures i.Some? ==> i.value < |users|
  {
    First(users, (u: string) => u == user)
  }

  function OrgAt(orgs: seq<Account>, slug: string): (i: Option<nat>)
    ensures i.Some? ==> i.value < |orgs|
  {
    First(orgs, (o: Account) => o.slug == slug)
  }

  function SpaceAt(spaces: seq<Space>, ext: string): (i: Option<nat>)
    ensures i.Some? ==> i.value < |spaces|
  {
    First(spaces, (p: Space) => p.ext == ext)
  }

  function SlugAt(spaces: seq<Space>, slug: string): Option<nat> {
    First(spaces, (p: Space) => p.slug == slug)
  }

  function SeatAt(seats: seq<Seat>, user: nat, org: nat): (i: Option<nat>)
    ensures i.Some? ==> i.value < |seats|
  {
    First(seats, (s: Seat) => s.user == user && s.org == org)
  }

  // ---------------------------------------------------------------- the upsert, table by table

  /** Where the row is, or where it is about to be inserted. */
  function Id(i: Option<nat>, next: nat): nat { if i.Some? then i.value else next }

  function PutUser(users: seq<string>, user: string): seq<string> {
    if UserAt(users, user).Some? then users else users + [user]
  }

  function PutOrg(orgs: seq<Account>, slug: string, kind: Kind): seq<Account> {
    if OrgAt(orgs, slug).Some? then orgs else orgs + [Account(slug, kind)]
  }

  /** The workspace, created in the organization or attached to it if it had none yet. */
  function PutSpace(spaces: seq<Space>, ext: string, slug: string, org: nat): seq<Space> {
    var i := SpaceAt(spaces, ext);
    if i.None? then spaces + [Space(ext, slug, Some(org))]
    else if spaces[i.value].org.None? then spaces[i.value := spaces[i.value].(org := Some(org))]
    else spaces
  }

  /** The membership, with the claimed role. */
  function PutSeat(seats: seq<Seat>, user: nat, org: nat, role: Role): seq<Seat> {
    var i := SeatAt(seats, user, org);
    if i.None? then seats + [Seat(user, org, role)] else seats[i.value := Seat(user, org, role)]
  }

  /** Another workspace holds the slug this one would need. */
  predicate SlugTaken(spaces: seq<Space>, ext: string, slug: string) {
    SpaceAt(spaces, ext).None? && SlugAt(spaces, slug).Some?
  }

  function Who(t: Tables, c: Claims): Principal {
    Principal(
      Id(SpaceAt(t.spaces, Ext(c)), |t.spaces|),
      Id(UserAt(t.users, c.user), |t.users|),
      c.role,
      Id(OrgAt(t.orgs, Slug(Ext(c))), |t.orgs|))
  }

  function Upsert(t: Tables, c: Claims): Outcome {
    var ext, slug := Ext(c), Slug(Ext(c));
    var who := Who(t, c);
    if SlugTaken(t.spaces, ext, slug) then Err(NoRow)
    else
      Ok((Tables(
            PutUser(t.users, c.user),
            PutOrg(t.orgs, slug, if InOrg(c) then Company else Personal),
            PutSpace(t.spaces, ext, slug, who.org),
            PutSeat(t.seats, who.user, who.org, c.role)),
          who))
  }

  /** A failed upsert is rolled back. */
  function Next(t: Tables, c: Claims): Tables {
    var r := Upsert(t, c);
    if r.Ok? then r.value.0 else t
  }

  function Run(t: Tables, cs: seq<Claims>): Tables {
    if cs == [] then t else Next(Run(t, cs[..|cs| - 1]), cs[|cs| - 1])
  }

  // ---------------------------------------------------------------- no key twice

  ghost predicate UniqueUsers(users: seq<string>) { forall i, j :: 0 <= i < j < |users| ==> users[i] != users[j] }

  ghost predicate UniqueOrgs(orgs: seq<Account>) { forall i, j :: 0 <= i < j < |orgs| ==> orgs[i].slug != orgs[j].slug }

  ghost predicate UniqueSpaces(spaces: seq<Space>) {
    && (forall i, j :: 0 <= i < j < |spaces| ==> spaces[i].ext != spaces[j].ext)
    && (forall i, j :: 0 <= i < j < |spaces| ==> spaces[i].slug != spaces[j].slug)
  }

  ghost predicate UniqueSeats(seats: seq<Seat>) {
    forall i, j :: 0 <= i < j < |seats| ==> !(seats[i].user == seats[j].user && seats[i].org == seats[j].org)
  }

  ghost predicate Linked(spaces: seq<Space>, orgs: nat) {
    forall p <- spaces :: p.org.Some? ==> p.org.value < orgs
  }

  ghost predicate Seated(seats: seq<Seat>, users: nat, orgs: nat) {
    forall s <- seats :: s.user < users && s.org < orgs
  }

  ghost predicate Slugged(spaces: seq<Space>) {
    forall p <- spaces :: p.slug == Slug(p.ext)
  }

  /** One row per Clerk user, per slug, per external workspace id, and per user in an organization;
      workspaces carry their slug, and workspaces and memberships refer to rows that exist. */
  ghost predicate Sound(t: Tables) {
    && UniqueUsers(t.users) && UniqueOrgs(t.orgs) && UniqueSpaces(t.spaces) && UniqueSeats(t.seats)
    && Linked(t.spaces, |t.orgs|) && Slugged(t.spaces) && Seated(t.seats, |t.users|, |t.orgs|)
  }

  lemma UsersPut(users: seq<string>, user: string)
    requires UniqueUsers(users)
    ensures UniqueUsers(PutUser(users, user)) && users <= PutUser(users, user)
    ensures UserAt(PutUser(users, user), user) == Some(Id(UserAt(users, user), |users|))
  {
    var users' := PutUser(users, user);
    assert users'[Id(UserAt(users, user), |users|)] == user;
  }

  lemma OrgsPut(orgs: seq<Account>, slug: string, kind: Kind)
    requires UniqueOrgs(orgs)
    ensures UniqueOrgs(PutOrg(orgs, slug, kind)) && orgs <= PutOrg(orgs, slug, kind)
    ensures OrgAt(PutOrg(orgs, slug, kind), slug) == Some(Id(OrgAt(orgs, slug), |orgs|))
  {
    var orgs' := PutOrg(orgs, slug, kind);
    assert orgs'[Id(OrgAt(orgs, slug), |orgs|)].slug == slug;
  }

  lemma SpacesPut(spaces: seq<Space>, ext: string, slug: string, org: nat)
    requires UniqueSpaces(spaces) && Slugged(spaces) && slug == Slug(ext) && !SlugTaken(spaces, ext, slug)
    ensures var spaces' := PutSpace(spaces, ext, slug, org);
            var id := Id(SpaceAt(spaces, ext), |spaces|);
            && UniqueSpaces(spaces') && Slugged(spaces')
            && SpaceAt(spaces', ext) == Some(id) && spaces'[id].org.Some?
  {
    var spaces' := PutSpace(spaces, ext, slug, org);
    assert spaces'[Id(SpaceAt(spaces, ext), |spaces|)].ext == ext;
    hide Slug;
  }

  /** The other workspaces keep their rows, and this one its organization. */
  lemma SpacesKept(spaces: seq<Space>, ext: string, slug: string, org: nat, i: nat)
    requires i < |spaces|
    ensures var spaces' := PutSpace(spaces, ext, slug, org);
            && i < |spaces'| && spaces'[i].ext == spaces[i].ext && spaces'[i].slug == spaces[i].slug
            && (spaces[i].org.Some? || spaces[i].ext != ext ==> spaces'[i] == spaces[i])
  {
  }

  lemma LinkedPut(spaces: seq<Space>, ext: string, slug: string, org: nat, orgs: nat, orgs': nat)
    requires Linked(spaces, orgs) && org < orgs' && orgs <= orgs'
    ensures Linked(PutSpace(spaces, ext, slug, org), orgs')
  {
  }

  lemma SeatsPut(seats: seq<Seat>, user: nat, org: nat, role: Role)
    requires UniqueSeats(seats)
    ensures var seats' := PutSeat(seats, user, org, role);
            var id := Id(SeatAt(seats, user, org), |seats|);
            UniqueSeats(seats') && SeatAt(seats', user, org) == Some(id) && seats'[id] == Seat(user, org, role)
  {
    var seats' := PutSeat(seats, user, org, role);
    assert seats'[Id(SeatAt(seats, user, org), |seats|)] == Seat(user, org, role);
  }

  lemma SeatedPut(seats: seq<Seat>, user: nat, org: nat, role: Role, users: nat, orgs: nat, users': nat, orgs': nat)
    requires Seated(seats, users, orgs) && user < users' && org < orgs' && users <= users' && orgs <= orgs'
    ensures Seated(PutSeat(seats, user, org, role), users', orgs')
  {
  }

  /** Every upsert keeps the keys unique, and its rows are there afterwards where its answer says. */
  lemma Landed(t: Tables, c: Claims)
    requires Sound(t) && Upsert(t, c).Ok?
    ensures var (t', who) := Upsert(t, c).value;
            && Sound(t')
            && UserAt(t'.users, c.user) == Some(who.user)
            && OrgAt(t'.orgs, Slug(Ext(c))) == Some(who.org)
            && SpaceAt(t'.spaces, Ext(c)) == Some(who.project) && t'.spaces[who.project].org.Some?
            && SeatAt(t'.seats, who.user, who.org).Some?
            && t'.seats[SeatAt(t'.seats, who.user, who.org).value] == Seat(who.user, who.org, c.role)
  {
    var (t', who) := Upsert(t, c).value;
    var ext, slug := Ext(c), Slug(Ext(c));
    UsersPut(t.users, c.user);
    OrgsPut(t.orgs, slug, if InOrg(c) then Company else Personal);
    SpacesPut(t.spaces, ext, slug, who.org);
    LinkedPut(t.spaces, ext, slug, who.org, |t.orgs|, |t'.orgs|);
    SeatsPut(t.seats, who.user, who.org, c.role);
    SeatedPut(t.seats, who.user, who.org, c.role, |t.users|, |t.orgs|, |t'.users|, |t'.orgs|);
    hide UniqueUsers, UniqueOrgs, UniqueSpaces, UniqueSeats, Linked, Seated, Slugged, UserAt, OrgAt, SpaceAt, SeatAt,
         PutUser, PutOrg, PutSpace, PutSeat, Slug, Ext, SlugTaken;
  }

  lemma NextSound(t: Tables, c: Claims)
    requires Sound(t)
    ensures Sound(Next(t, c))
  {
    if Upsert(t, c).Ok? { Landed(t, c); }
  }

  /** Whatever the claims, in whatever order, no key is ever entered twice. */
  lemma {:induction false} RunSound(t: Tables, cs: seq<Claims>)
    requires Sound(t)
    ensures Sound(Run(t, cs))
  {
    if cs != [] {
      RunSound(t, cs[..|cs| - 1]);
      NextSound(Run(t, cs[..|cs| - 1]), cs[|cs| - 1]);
    }
  }

  /** Repeating an upsert changes nothing and answers the same. */
  lemma Idempotent(t: Tables, c: Claims)
    requires Sound(t) && Upsert(t, c).Ok?
    ensures Upsert(Upsert(t, c).value.0, c) == Upsert(t, c)
  {
    Landed(t, c);
    hide Sound, UserAt, OrgAt, SpaceAt, SeatAt, Slug, Ext;
    var (t', who) := Upsert(t, c).value;
    var i := SeatAt(t'.seats, who.user, who.org).value;
    assert t'.seats[i := Seat(who.user, who.org, c.role)] == t'.seats;
  }

  // ---------------------------------------------------------------- workspaces stay where they are

  /** The workspace in row `i` is still there under its id, and in its organization if it had one. */
  ghost predicate StaysPut(t: Tables, t': Tables, i: nat) {
    i < |t.spaces| ==>
      && i < |t'.spaces| && t'.spaces[i].ext == t.spaces[i].ext && t'.spaces[i].slug == t.spaces[i].slug
      && (t.spaces[i].org.Some? ==> t'.spaces[i] == t.spaces[i])
  }

  /** No run of upserts ever moves a workspace that is attached to an organization. */
  lemma {:induction false} NeverMoved(t: Tables, cs: seq<Claims>, i: nat)
    ensures StaysPut(t, Run(t, cs), i)
  {
    if cs != [] && i < |t.spaces| {
      var before, c := Run(t, cs[..|cs| - 1]), cs[|cs| - 1];
      NeverMoved(t, cs[..|cs| - 1], i);
      SpacesKept(before.spaces, Ext(c), Slug(Ext(c)), Who(before, c).org, i);
      hide Slug, Ext;
    }
  }

  /** The principal's organization is its workspace's own, unless the workspace had been attached to a
      different one before: a migrated workspace stays where the migration put it. */
  lemma PrincipalOwnsSpace(t: Tables, c: Claims)
    requires Sound(t) && Upsert(t, c).Ok?
    ensures var (t', who) := Upsert(t, c).value;
            var before := SpaceAt(t.spaces, Ext(c));
            who.project < |t'.spaces| &&
            (t'.spaces[who.project].org == Some(who.org) <==>
               (before.Some? && t.spaces[before.value].org.Some? ==> OrgAt(t.orgs, Slug(Ext(c))) == t.spaces[before.value].org))
  {
    var (t', who) := Upsert(t, c).value;
    var before := SpaceAt(t.spaces, Ext(c));
    if before.Some? { assert t.spaces[before.value] in t.spaces; }
    hide Slug, Ext;
  }

  // ---------------------------------------------------------------- when an upsert fails

  /** An upsert fails exactly when its workspace is new and the slug, cut to the column's width, is that of
      another external id. */
  lemma FailsExactly(t: Tables, c: Claims)
    requires Sound(t)
    ensures Upsert(t, c).Err? <==>
              && (forall p <- t.spaces :: p.ext != Ext(c))
              && exists p <- t.spaces :: Slug(p.ext) == Slug(Ext(c))
  {
    var ext := Ext(c);
    hide Slug, Ext;
    var i, j := SpaceAt(t.spaces, ext), SlugAt(t.spaces, Slug(ext));
    if i.Some? { assert t.spaces[i.value] in t.spaces; }
    if j.Some? { assert t.spaces[j.value] in t.spaces; }
    forall p <- t.spaces ensures p.ext == ext ==> i.Some? {
      var k :| 0 <= k < |t.spaces| && t.spaces[k] == p;
    }
    forall p <- t.spaces ensures Slug(p.ext) == Slug(ext) ==> j.Some? {
      var k :| 0 <= k < |t.spaces| && t.spaces[k] == p;
    }
  }

  predicate Fits(ext: string) { |"clerk-" + ext| <= SLUG_MAX }

  lemma FittingSlugsDiffer(a: string, b: string)
    requires Fits(a) && Fits(b) && a != b
    ensures Slug(a) != Slug(b)
  {
    assert ("clerk-" + a)[6..] == a && ("clerk-" + b)[6..] == b;
  }

  ghost predicate AllFit(spaces: seq<Space>) { forall p <- spaces :: Fits(p.ext) }

  lemma {:induction false} RunFits(cs: seq<Claims>)
    requires forall c <- cs :: Fits(Ext(c))
    ensures AllFit(Run(EMPTY, cs).spaces)
  {
    if cs != [] {
      var before, c := Run(EMPTY, cs[..|cs| - 1]), cs[|cs| - 1];
      RunFits(cs[..|cs| - 1]);
      assert c in cs;
      hide Fits, Ext, Slug;
      forall p <- Next(before, c).spaces ensures Fits(p.ext) {
        var i :| 0 <= i < |Next(before, c).spaces| && Next(before, c).spaces[i] == p;
        if i < |before.spaces| {
          SpacesKept(before.spaces, Ext(c), Slug(Ext(c)), Who(before, c).org, i);
          assert before.spaces[i] in before.spaces;
        }
      }
    }
  }

  /** As long as ids are short enough not to be cut, no upsert of any sequence fails. */
  lemma ShortIdsNeverFail(cs: seq<Claims>, c: Claims)
    requires (forall d <- cs :: Fits(Ext(d))) && Fits(Ext(c))
    ensures Upsert(Run(EMPTY, cs), c).Ok?
  {
    var t := Run(EMPTY, cs);
    RunSound(EMPTY, cs);
    RunFits(cs);
    FailsExactly(t, c);
    forall p <- t.spaces | p.ext != Ext(c) ensures Slug(p.ext) != Slug(Ext(c)) {
      FittingSlugsDiffer(p.ext, Ext(c));
    }
  }

  /** Two external ids that are cut to the same slug never share an organization: once one of them has its
      workspace, every upsert of the other fails. */
  lemma CutIdsNeverShare(t: Tables, cs: seq<Claims>, c: Claims, d: Claims)
    requires Sound(t) && Upsert(t, c).Ok? && Ext(c) != Ext(d) && Slug(Ext(c)) == Slug(Ext(d))
    requires forall p <- t.spaces :: p.ext != Ext(d)
    ensures Upsert(Run(Upsert(t, c).value.0, cs), d).Err?
  {
    Landed(t, c);
    var (t1, who) := Upsert(t, c).value;
    NoRowYet(t, c, d);
    StillRefused(t1, cs, who.project, Ext(c), d);
  }

  lemma NoRowYet(t: Tables, c: Claims, d: Claims)
    requires Sound(t) && Upsert(t, c).Ok? && Ext(c) != Ext(d) && forall p <- t.spaces :: p.ext != Ext(d)
    ensures forall p <- Upsert(t, c).value.0.spaces :: p.ext != Ext(d)
  {
    hide Ext, Slug;
    var t' := Upsert(t, c).value.0;
    forall p <- t'.spaces ensures p.ext != Ext(d) {
      var i :| 0 <= i < |t'.spaces| && t'.spaces[i] == p;
      if i < |t.spaces| {
        SpacesKept(t.spaces, Ext(c), Slug(Ext(c)), Who(t, c).org, i);
        assert t.spaces[i] in t.spaces;
      }
    }
  }

  lemma {:induction false} StillRefused(t: Tables, cs: seq<Claims>, i: nat, ext: string, d: Claims)
    requires Sound(t) && i < |t.spaces| && t.spaces[i].ext == ext && Slug(ext) == Slug(Ext(d))
    requires forall p <- t.spaces :: p.ext != Ext(d)
    ensures Sound(Run(t, cs)) && Upsert(Run(t, cs), d).Err?
    ensures forall p <- Run(t, cs).spaces :: p.ext != Ext(d)
  {
    RunSound(t, cs);
    if cs != [] {
      var before, c := Run(t, cs[..|cs| - 1]), cs[|cs| - 1];
      StillRefused(t, cs[..|cs| - 1], i, ext, d);
      if Upsert(before, c).Ok? {
        SameUpsert(before, c, d);
        NoRowYet(before, c, d);
      }
    }
    NeverMoved(t, cs, i);
    var t' := Run(t, cs);
    assert t'.spaces[i] in t'.spaces;
    FailsExactly(t', d);
  }

  lemma SameUpsert(t: Tables, c: Claims, d: Claims)
    requires Upsert(t, d).Err? && Upsert(t, c).Ok?
    ensures Ext(c) != Ext(d)
  {
    hide Ext, Slug;
  }

  // ---------------------------------------------------------------- memberships follow the claims

  /** The role a Clerk user has in the organization under this slug. */
  function RoleOf(t: Tables, user: string, slug: string): Option<Role> {
    var u, o := UserAt(t.users, user), OrgAt(t.orgs, slug);
    if u.None? || o.None? then None
    else
      var i := SeatAt(t.seats, u.value, o.value);
      if i.Some? then Some(t.seats[i.value].role) else None
  }

  lemma UsersOther(users: seq<string>, user: string, other: string)
    requires UniqueUsers(users) && other != user
    ensures UserAt(PutUser(users, user), other) == UserAt(users, other)
  {
    UsersPut(users, user);
    var i := UserAt(users, other);
    if i.Some? { assert PutUser(users, user)[i.value] == other; }
  }

  lemma OrgsOther(orgs: seq<Account>, slug: string, kind: Kind, other: string)
    requires UniqueOrgs(orgs) && other != slug
    ensures OrgAt(PutOrg(orgs, slug, kind), other) == OrgAt(orgs, other)
  {
    OrgsPut(orgs, slug, kind);
    var i := OrgAt(orgs, other);
    if i.Some? { assert PutOrg(orgs, slug, kind)[i.value].slug == other; }
  }

  lemma SeatsOther(seats: seq<Seat>, user: nat, org: nat, role: Role, u: nat, o: nat)
    requires UniqueSeats(seats) && !(u == user && o == org)
    ensures SeatAt(PutSeat(seats, user, org, role), u, o) == SeatAt(seats, u, o)
    ensures SeatAt(seats, u, o).Some? ==>
              var i := SeatAt(seats, u, o).value; PutSeat(seats, user, org, role)[i] == seats[i]
  {
    SeatsPut(seats, user, org, role);
    var i, seats' := SeatAt(seats, u, o), PutSeat(seats, user, org, role);
    if i.Some? { assert seats'[i.value] == seats[i.value]; }
    var j := SeatAt(seats', u, o);
    if j.Some? && j.value < |seats| { assert seats'[j.value] == seats[j.value]; }
  }

  lemma NoSeatYet(seats: seq<Seat>, users: nat, orgs: nat, u: nat, o: nat)
    requires Seated(seats, users, orgs) && (u >= users || o >= orgs)
    ensures SeatAt(seats, u, o).None?
  {
    forall k | 0 <= k < |seats| ensures seats[k].user < users && seats[k].org < orgs {
      assert seats[k] in seats;
    }
  }

  /** An upsert sets the role it claims and touches nobody else's. */
  lemma RoleAfter(t: Tables, c: Claims, user: string, slug: string)
    requires Sound(t) && Upsert(t, c).Ok?
    ensures RoleOf(Upsert(t, c).value.0, user, slug) ==
              if user == c.user && slug == Slug(Ext(c)) then Some(c.role) else RoleOf(t, user, slug)
  {
    var (t', who) := Upsert(t, c).value;
    Landed(t, c);
    var mine := Slug(Ext(c));
    if user != c.user { UsersOther(t.users, c.user, user); }
    if slug != mine { OrgsOther(t.orgs, mine, if InOrg(c) then Company else Personal, slug); }
    var u, o := UserAt(t'.users, user), OrgAt(t'.orgs, slug);
    if u.Some? && o.Some? && !(user == c.user && slug == mine) {
      RoleElsewhere(t, c, user, slug, u.value, o.value);
    }
    hide Sound, UserAt, OrgAt, SeatAt, PutUser, PutOrg, PutSpace, PutSeat, Slug, Ext, SlugTaken;
  }

  lemma RoleElsewhere(t: Tables, c: Claims, user: string, slug: string, u: nat, o: nat)
    requires Sound(t) && Upsert(t, c).Ok? && !(user == c.user && slug == Slug(Ext(c)))
    requires UserAt(Upsert(t, c).value.0.users, user) == Some(u) && OrgAt(Upsert(t, c).value.0.orgs, slug) == Some(o)
    ensures var i := SeatAt(Upsert(t, c).value.0.seats, u, o);
            && i.Some? == RoleOf(t, user, slug).Some?
            && (i.Some? ==> Upsert(t, c).value.0.seats[i.value].role == RoleOf(t, user, slug).value)
  {
    var (t', who) := Upsert(t, c).value;
    var mine := Slug(Ext(c));
    Landed(t, c);
    assert u == who.user && o == who.org ==> user == c.user && slug == mine by {
      assert t'.users[u] == user && t'.orgs[o].slug == slug && t'.users[who.user] == c.user && t'.orgs[who.org].slug == mine;
      hide Ext, Slug;
    }
    SeatsOther(t.seats, who.user, who.org, c.role, u, o);
    if user != c.user { UsersOther(t.users, c.user, user); } else { UsersPut(t.users, c.user); }
    if slug != mine { OrgsOther(t.orgs, mine, if InOrg(c) then Company else Personal, slug); }
    else { OrgsPut(t.orgs, mine, if InOrg(c) then Company else Personal); }
    if UserAt(t.users, user).None? || OrgAt(t.orgs, slug).None? { NoSeatYet(t.seats, |t.users|, |t.orgs|, u, o); }
    hide Sound, UserAt, OrgAt, SeatAt, PutUser, PutOrg, PutSpace, PutSeat, Slug, Ext, SlugTaken;
  }

  /** The role last claimed for this user and external id. */
  function Latest(cs: seq<Claims>, user: string, ext: string): Option<Role> {
    if cs == [] then None
    else
      var c := cs[|cs| - 1];
      if c.user == user && Ext(c) == ext then Some(c.role) else Latest(cs[..|cs| - 1], user, ext)
  }

  /** After any sequence of upserts, whoever was claimed to be in an organization is, with the role last
      claimed, and nobody else is. */
  lemma {:induction false} RolesAreLatest(cs: seq<Claims>, user: string, ext: string)
    requires (forall c <- cs :: Fits(Ext(c))) && Fits(ext)
    ensures RoleOf(Run(EMPTY, cs), user, Slug(ext)) == Latest(cs, user, ext)
  {
    if cs != [] {
      var before, c := cs[..|cs| - 1], cs[|cs| - 1];
      assert c in cs;
      RolesAreLatest(before, user, ext);
      RunSound(EMPTY, before);
      ShortIdsNeverFail(before, c);
      RoleAfter(Run(EMPTY, before), c, user, Slug(ext));
      if Ext(c) != ext { FittingSlugsDiffer(Ext(c), ext); }
      hide RoleOf, Upsert, Slug, Ext, Fits, Sound;
    }
  }

  /** A Clerk personal account has its own user and nobody else, given that no organization id looks like
      a personal one. */
  lemma {:induction false} PersonalAccountIsOwn(cs: seq<Claims>, user: string, owner: string)
    requires forall c <- cs :: InOrg(c) ==> !("user:" <= c.org.value)
    ensures Latest(cs, user, "user:" + owner).Some? ==> user == owner
  {
    if cs != [] {
      var c := cs[|cs| - 1];
      assert c in cs;
      PersonalAccountIsOwn(cs[..|cs| - 1], user, owner);
      if c.user == user && Ext(c) == "user:" + owner {
        assert ("user:" + owner)[..5] == "user:";
        assert ("user:" + owner)[5..] == owner && ("user:" + c.user)[5..] == c.user;
      }
    }
  }

  /** Organizations of personal accounts are personal and all others are companies, for ever. */
  lemma {:induction false} KindsFollowClaims(cs: seq<Claims>, ext: string)
    requires (forall c <- cs :: Fits(Ext(c))) && Fits(ext)
    requires forall c <- cs :: InOrg(c) ==> !("user:" <= c.org.value)
    ensures var orgs := Run(EMPTY, cs).orgs;
            var i := OrgAt(orgs, Slug(ext));
            i.Some? ==> orgs[i.value].kind == if "user:" <= ext then Personal else Company
  {
    if cs != [] {
      var before, c := Run(EMPTY, cs[..|cs| - 1]), cs[|cs| - 1];
      assert c in cs;
      KindsFollowClaims(cs[..|cs| - 1], ext);
      RunSound(EMPTY, cs[..|cs| - 1]);
      ShortIdsNeverFail(cs[..|cs| - 1], c);
      OrgsPut(before.orgs, Slug(Ext(c)), if InOrg(c) then Company else Personal);
      assert "user:" <= Ext(c) <==> !InOrg(c);
      if Ext(c) != ext {
        FittingSlugsDiffer(Ext(c), ext);
        OrgsOther(before.orgs, Slug(Ext(c)), if InOrg(c) then Company else Personal, Slug(ext));
      }
      hide Sound, Slug, Ext, Fits, UserAt, SpaceAt, SeatAt, PutUser, PutSpace, PutSeat;
    }
  }

  // ---------------------------------------------------------------- the tables in place

  class Database {
    var users: seq<string>
    var orgs: seq<Account>
    var spaces: seq<Space>
    var seats: seq<Seat>

    constructor ()
      ensures View() == EMPTY
    {
      users, orgs, spaces, seats := [], [], [], [];
    }

    function View(): Tables
      reads this
    {
      Tables(users, orgs, spaces, seats)
    }

    method GetOrCreateUser(user: string) returns (id: nat)
      modifies this`users
      ensures users == PutUser(old(users), user) && id == Id(UserAt(old(users), user), |old(users)|)
    {
      var found := UserAt(users, user);
      if found.Some? {
        return found.value;
      }
      id := |users|;
      users := users + [user];
    }

    method GetOrCreateOrg(slug: string, kind: Kind) returns (id: nat)
      modifies this`orgs
      ensures orgs == PutOrg(old(orgs), slug, kind) && id == Id(OrgAt(old(orgs), slug), |old(orgs)|)
    {
      var found := OrgAt(orgs, slug);
      if found.Some? {
        return found.value;
      }
      id := |orgs|;
      orgs := orgs + [Account(slug, kind)];
    }

    /** None when the insert clashes on the slug and the second select finds nothing. */
    method GetOrCreateSpace(ext: string, slug: string, org: nat) returns (id: Option<nat>)
      modifies this`spaces
      ensures SlugTaken(old(spaces), ext, slug) ==> id.None? && spaces == old(spaces)
      ensures !SlugTaken(old(spaces), ext, slug) ==>
                && id == Some(Id(SpaceAt(old(spaces), ext), |old(spaces)|))
                && spaces == if SpaceAt(old(spaces), ext).Some? then old(spaces) else old(spaces) + [Space(ext, slug, Some(org))]
    {
      id := SpaceAt(spaces, ext);
      if id.None? && SlugAt(spaces, slug).None? {
        id := Some(|spaces|);
        spaces := spaces + [Space(ext, slug, Some(org))];
      }
    }

    method SyncSeat(user: nat, org: nat, role: Role)
      modifies this`seats
      ensures seats == PutSeat(old(seats), user, org, role)
    {
      var found := SeatAt(seats, user, org);
      if found.None? {
        seats := seats + [Seat(user, org, role)];
      } else if seats[found.value].role != role {
        seats := seats[found.value := seats[found.value].(role := role)];
      }
    }

    /** User, organization, workspace, membership; nothing of it stays when the workspace clashes. */
    method UpsertPrincipal(c: Claims) returns (r: Result<Principal, Failure>)
      modifies this
      ensures View() == Next(old(View()), c)
      ensures match Upsert(old(View()), c) case Ok(v) => r == Ok(v.1) case Err(e) => r == Err(e)
    {
      var ext, slug := Ext(c), Slug(Ext(c));
      var saved := View();
      hide Ext, Slug;
      var user := GetOrCreateUser(c.user);
      var org := GetOrCreateOrg(slug, if InOrg(c) then Company else Personal);
      var space := GetOrCreateSpace(ext, slug, org);
      if space.None? {
        users, orgs := saved.users, saved.orgs;
        return Err(NoRow);
      }
      if spaces[space.value].org.None? {
        spaces := spaces[space.value := spaces[space.value].(org := Some(org))];
      }
      SyncSeat(user, org, c.role);
      r := Ok(Principal(space.value, user, c.role, org));
    }
  }
}
