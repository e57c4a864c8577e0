/** The project table stays in order, and `select_membership` answers with the named or the oldest
    reachable workspace, refusing exactly when there is none. */
module AccountsAccess {
  import opened Prelude
  import opened AccountsSpec

  /** Strictly in (created_at, id) order, and no id twice. */
  ghost predicate Ordered(ps: seq<Project>) {
    && (forall i, j :: 0 <= i < j < |ps| ==> Before(ps[i], ps[j]))
    && (forall i, j :: 0 <= i < j < |ps| ==> ps[i].id != ps[j].id)
  }

  lemma {:induction false} PlacedHolds(ps: seq<Project>, p: Project)
    ensures forall q :: q in Placed(ps, p) <==> q == p || q in ps
  {
    if ps != [] && !Before(p, ps[0]) {
      PlacedHolds(ps[1..], p);
      assert ps == [ps[0]] + ps[1..];
    }
  }

  lemma {:induction false} PlacedOrdered(ps: seq<Project>, p: Project)
    requires Ordered(ps) && !HasId(ps, p.id)
    ensures Ordered(Placed(ps, p))
  {
    if ps != [] {
      assert ps[0] in ps;
      if !Before(p, ps[0]) {
        assert !HasId(ps[1..], p.id) by { assert forall q <- ps[1..] :: q in ps; }
        PlacedOrdered(ps[1..], p);
        PlacedHolds(ps[1..], p);
        var rest := Placed(ps[1..], p);
        assert Before(ps[0], p);
        forall q <- rest ensures Before(ps[0], q) && ps[0].id != q.id {
          if q != p { assert q in ps[1..]; }
        }
      } else {
        forall q <- ps ensures Before(p, q) && q.id != p.id {
          var i :| 0 <= i < |ps| && ps[i] == q;
          if i > 0 { assert Before(ps[0], ps[i]); }
        }
      }
    }
  }

  lemma {:induction false} OutsideHolds(ps: seq<Project>, o: OrgId)
    ensures forall q :: q in Outside(ps, o) <==> q in ps && q.org != Some(o)
  {
    if ps != [] {
      OutsideHolds(ps[1..], o);
      assert ps == [ps[0]] + ps[1..];
    }
  }

  lemma {:induction false} OutsideOrdered(ps: seq<Project>, o: OrgId)
    requires Ordered(ps)
    ensures Ordered(Outside(ps, o))
  {
    if ps != [] {
      OutsideOrdered(ps[1..], o);
      OutsideHolds(ps[1..], o);
      var rest := Outside(ps[1..], o);
      forall q <- rest ensures Before(ps[0], q) && ps[0].id != q.id {
        assert q in ps[1..];
      }
    }
  }

  lemma {:induction false} WithoutIdHolds(ps: seq<Project>, id: ProjectId)
    ensures forall q :: q in WithoutId(ps, id) <==> q in ps && q.id != id
  {
    if ps != [] {
      WithoutIdHolds(ps[1..], id);
      assert ps == [ps[0]] + ps[1..];
    }
  }

  lemma {:induction false} WithoutIdOrdered(ps: seq<Project>, id: ProjectId)
    requires Ordered(ps)
    ensures Ordered(WithoutId(ps, id))
  {
    if ps != [] {
      WithoutIdOrdered(ps[1..], id);
      WithoutIdHolds(ps[1..], id);
      forall q <- WithoutId(ps[1..], id) ensures Before(ps[0], q) && ps[0].id != q.id {
        assert q in ps[1..];
      }
    }
  }

  lemma {:induction false} WithoutIdSame(ps: seq<Project>, id: ProjectId)
    requires !HasId(ps, id)
    ensures WithoutId(ps, id) == ps
  {
    if ps != [] {
      assert ps[0] in ps;
      assert forall q <- ps[1..] :: q in ps;
      WithoutIdSame(ps[1..], id);
    }
  }

  /** Exactly the deleted workspace is gone from its organization's count. */
  lemma {:induction false} WithoutIdCount(ps: seq<Project>, p: Project, o: OrgId)
    requires Ordered(ps) && p in ps
    ensures WorkspaceCount(WithoutId(ps, p.id), o) == WorkspaceCount(ps, o) - if p.org == Some(o) then 1 else 0
  {
    var rest := ps[1..];
    assert ps == [ps[0]] + rest;
    if p == ps[0] {
      forall q <- rest ensures q.id != p.id {}
      WithoutIdSame(rest, p.id);
      assert [] + rest == rest;
    } else {
      assert p in rest && ps[0].id != p.id;
      WithoutIdCount(rest, p, o);
      assert ([ps[0]] + WithoutId(rest, p.id))[1..] == WithoutId(rest, p.id);
    }
  }

  lemma IdsUnique(ps: seq<Project>, p: Project, q: Project)
    requires Ordered(ps) && p in ps && q in ps && p != q
    ensures p.id != q.id
  {
    var i :| 0 <= i < |ps| && ps[i] == p;
    var j :| 0 <= j < |ps| && ps[j] == q;
    if i < j { assert ps[i].id != ps[j].id; } else { assert ps[j].id != ps[i].id; }
  }

  lemma {:induction false} PlacedCount(ps: seq<Project>, p: Project, o: OrgId)
    ensures WorkspaceCount(Placed(ps, p), o) == WorkspaceCount(ps, o) + if p.org == Some(o) then 1 else 0
  {
    if ps != [] && !Before(p, ps[0]) { PlacedCount(ps[1..], p, o); }
  }

  lemma {:induction false} OutsideCount(ps: seq<Project>, o: OrgId, other: OrgId)
    ensures WorkspaceCount(Outside(ps, o), other) == if other == o then 0 else WorkspaceCount(ps, other)
  {
    if ps != [] {
      var rest := Outside(ps[1..], o);
      OutsideCount(ps[1..], o, other);
      assert [] + rest == rest && ([ps[0]] + rest)[1..] == rest;
    }
  }

  lemma {:induction false} NoneCounted(ps: seq<Project>, o: OrgId)
    ensures WorkspaceCount(ps, o) == 0 <==> !HasOrg(ps, o)
  {
    if ps != [] {
      NoneCounted(ps[1..], o);
      assert ps == [ps[0]] + ps[1..];
      if HasOrg(ps[1..], o) {
        var p :| p in ps[1..] && p.org == Some(o);
        assert p in ps;
      }
    }
  }

  // ---------------------------------------------------------------- select_membership

  lemma {:induction false} WorkspacesHold(ps: seq<Project>, members: map<(OrgId, User), Role>, u: User, p: Project)
    ensures p in Workspaces(ps, members, u) <==> p in ps && Reaches(members, u, p)
  {
    if ps != [] {
      WorkspacesHold(ps[1..], members, u, p);
      assert ps == [ps[0]] + ps[1..];
    }
  }

  lemma {:induction false} WorkspacesOrdered(ps: seq<Project>, members: map<(OrgId, User), Role>, u: User)
    requires Ordered(ps)
    ensures Ordered(Workspaces(ps, members, u))
  {
    if ps != [] {
      WorkspacesOrdered(ps[1..], members, u);
      forall q <- Workspaces(ps[1..], members, u) ensures Before(ps[0], q) && ps[0].id != q.id {
        assert q in ps[1..];
      }
    }
  }

  lemma {:induction false} NamedHolds(rows: seq<Project>, x: ProjectId)
    ensures Named(rows, x).Some? <==> HasId(rows, x)
    ensures Named(rows, x).Some? ==> Named(rows, x).value in rows && Named(rows, x).value.id == x
  {
    if rows != [] {
      NamedHolds(rows[1..], x);
      assert rows == [rows[0]] + rows[1..];
      if HasId(rows[1..], x) {
        var p :| p in rows[1..] && p.id == x;
        assert p in rows;
      }
    }
  }

  /** This row is one the user reaches through the organization owning it. */
  ghost predicate Reachable(w: World, u: User, p: Project) {
    p in w.projects && Reaches(w.members, u, p)
  }

  /** The row behind an answer. */
  ghost predicate Answers(w: World, u: User, p: Project, who: Principal) {
    Reachable(w, u, p) && who == Principal(p.id, p.org.value, w.members[(p.org.value, u)])
  }

  /** With a header: the named workspace, granted exactly when the user reaches a workspace of that id. */
  lemma NamedExactly(w: World, u: User, x: ProjectId)
    ensures SelectMembership(w, u, Some(x)).Ok? <==> exists p :: Reachable(w, u, p) && p.id == x
    ensures SelectMembership(w, u, Some(x)).Ok? ==>
              exists p :: Answers(w, u, p, SelectMembership(w, u, Some(x)).value) && p.id == x
  {
    var rows := Workspaces(w.projects, w.members, u);
    NamedHolds(rows, x);
    if p :| Reachable(w, u, p) && p.id == x { WorkspacesHold(w.projects, w.members, u, p); }
    if Named(rows, x).Some? {
      var p := Named(rows, x).value;
      WorkspacesHold(w.projects, w.members, u, p);
      assert SelectMembership(w, u, Some(x)).Ok? ==> Answers(w, u, p, SelectMembership(w, u, Some(x)).value);
    }
  }

  /** Without one: the oldest, granted exactly when the user reaches any workspace at all. */
  lemma OldestExactly(w: World, u: User)
    requires Ordered(w.projects)
    ensures SelectMembership(w, u, None).Ok? <==> exists p :: Reachable(w, u, p)
    ensures SelectMembership(w, u, None).Ok? ==>
              exists p :: Answers(w, u, p, SelectMembership(w, u, None).value) &&
                forall q :: Reachable(w, u, q) && q != p ==> Before(p, q)
  {
    var rows := Workspaces(w.projects, w.members, u);
    if p :| Reachable(w, u, p) { WorkspacesHold(w.projects, w.members, u, p); }
    if rows != [] {
      WorkspacesHold(w.projects, w.members, u, rows[0]);
      WorkspacesOrdered(w.projects, w.members, u);
      assert Answers(w, u, rows[0], SelectMembership(w, u, None).value);
      forall q | Reachable(w, u, q) && q != rows[0] ensures Before(rows[0], q) {
        WorkspacesHold(w.projects, w.members, u, q);
        var i :| 0 <= i < |rows| && rows[i] == q;
      }
    }
  }

  /** Whatever the header, the answer is a workspace the caller reaches. */
  lemma AnswersAreRows(w: World, u: User, x: Option<ProjectId>)
    requires SelectMembership(w, u, x).Ok?
    ensures exists p :: Answers(w, u, p, SelectMembership(w, u, x).value)
  {
    var rows := Workspaces(w.projects, w.members, u);
    if x.Some? { NamedHolds(rows, x.value); }
    var p := if x.Some? then Named(rows, x.value).value else rows[0];
    assert Answers(w, u, p, SelectMembership(w, u, x).value);
  }

  /** Whatever the header, the caller is a member of the organization it answers with. */
  lemma AnswersAreMembers(w: World, u: User, x: Option<ProjectId>)
    requires SelectMembership(w, u, x).Ok?
    ensures var who := SelectMembership(w, u, x).value;
            (who.org, u) in w.members && who.role == w.members[(who.org, u)] && HasOrg(w.projects, who.org)
  {
    var rows := Workspaces(w.projects, w.members, u);
    if x.Some? { NamedHolds(rows, x.value); }
  }
}
