/** `_get_or_create` run by any number of concurrent transactions over one unique key: a first select,
    an insert inside a savepoint, and a second select when the insert loses the race. */
module GetOrCreate {
  import opened Prelude

  /** The row under the key. An uncommitted row is visible to its own transaction only. */
  datatype Row = Row(id: nat, owner: nat, committed: bool)

  /** Where one caller is. `Got` has its result but has not committed; `Failed` is the exception of a
      second select that finds nothing. */
  datatype Pc =
    | Start
    | Missed
    | Lost
    | Got(id: nat, created: bool)
    | Done(id: nat, created: bool)
    | Aborted
    | Failed

  /** `foreignClash`: a committed row elsewhere violates some other unique constraint of the insert. */
  datatype State = State(row: Option<Row>, nextId: nat, foreignClash: bool, pcs: seq<Pc>)

  datatype Action = Select(c: nat) | Insert(c: nat) | Reselect(c: nat) | Commit(c: nat) | Abort(c: nat)

  predicate Visible(st: State, c: nat) {
    st.row.Some? && (st.row.value.committed || st.row.value.owner == c)
  }

  /** An insert waits while another transaction's uncommitted row holds the key. */
  predicate Blocked(st: State, c: nat) {
    st.row.Some? && !st.row.value.committed && st.row.value.owner != c
  }

  predicate Enabled(st: State, a: Action) {
    a.c < |st.pcs| &&
    match a
    case Select(c) => st.pcs[c] == Start
    case Insert(c) => st.pcs[c] == Missed && !Blocked(st, c)
    case Reselect(c) => st.pcs[c] == Lost
    case Commit(c) => st.pcs[c].Got?
    case Abort(c) => st.pcs[c] in {Start, Missed, Lost} || st.pcs[c].Got?
  }

  function At(st: State, c: nat, pc: Pc): State
    requires c < |st.pcs|
  {
    st.(pcs := st.pcs[c := pc])
  }

  function Found(st: State, c: nat, otherwise: Pc): State
    requires c < |st.pcs|
  {
    At(st, c, if Visible(st, c) then Got(st.row.value.id, false) else otherwise)
  }

  /** One step; a step that is not enabled does nothing. */
  function Next(st: State, a: Action): State {
    if !Enabled(st, a) then st
    else
      match a
      case Select(c) => Found(st, c, Missed)
      case Insert(c) =>
        if st.row.Some? || st.foreignClash then At(st, c, Lost)
        else At(st.(row := Some(Row(st.nextId, c, false)), nextId := st.nextId + 1), c, Got(st.nextId, true))
      case Reselect(c) => Found(st, c, Failed)
      case Commit(c) =>
        var st' := At(st, c, Done(st.pcs[c].id, st.pcs[c].created));
        if st.row.Some? && st.row.value.owner == c then st'.(row := Some(st.row.value.(committed := true))) else st'
      case Abort(c) =>
        var st' := At(st, c, Aborted);
        if st.row.Some? && st.row.value.owner == c && !st.row.value.committed then st'.(row := None) else st'
  }

  function Run(st: State, acts: seq<Action>): State {
    if acts == [] then st else Next(Run(st, acts[..|acts| - 1]), acts[|acts| - 1])
  }

  /** All callers at the start; the key is absent, or was committed earlier by somebody else. */
  predicate Initial(st: State) {
    && (forall c :: 0 <= c < |st.pcs| ==> st.pcs[c] == Start)
    && (st.row.Some? ==> st.row.value.committed && st.row.value.owner >= |st.pcs|)
  }

  /** What holds between the row and each caller in every reachable state. */
  ghost predicate Agrees(st: State, c: nat)
    requires c < |st.pcs|
  {
    match st.pcs[c]
    case Lost => st.row.Some? && st.row.value.committed
    case Got(id, created) =>
      && st.row.Some? && st.row.value.id == id
      && if created then st.row.value == Row(id, c, false) else st.row.value.committed && st.row.value.owner != c
    case Done(id, created) => st.row.Some? && st.row.value.id == id && st.row.value.committed && (created <==> st.row.value.owner == c)
    case Failed => false
    case _ => true
  }

  ghost predicate Inv(st: State) {
    && (forall c :: 0 <= c < |st.pcs| ==> Agrees(st, c))
    && (st.row.Some? && st.row.value.owner < |st.pcs| ==>
          st.pcs[st.row.value.owner] ==
            if st.row.value.committed then Done(st.row.value.id, true) else Got(st.row.value.id, true))
    && (st.row.Some? && st.row.value.owner >= |st.pcs| ==> st.row.value.committed)
    && (st.foreignClash ==> st.row.Some? && st.row.value.committed)
  }

  lemma NextKeepsInv(st: State, a: Action)
    requires Inv(st)
    ensures Inv(Next(st, a)) && |Next(st, a).pcs| == |st.pcs|
    ensures st.row.Some? && st.row.value.committed ==> Next(st, a).row == st.row
  {
    if Enabled(st, a) {
      var st' := Next(st, a);
      forall c | 0 <= c < |st.pcs| ensures Agrees(st', c) {
        assert Agrees(st, c) && Agrees(st, a.c);
      }
    }
  }

  lemma {:induction false} RunKeepsInv(st: State, acts: seq<Action>)
    requires Initial(st) && (st.foreignClash ==> st.row.Some?)
    ensures Inv(Run(st, acts)) && |Run(st, acts).pcs| == |st.pcs|
    ensures st.row.Some? ==> Run(st, acts).row == st.row
    decreases |acts|
  {
    if acts != [] {
      RunKeepsInv(st, acts[..|acts| - 1]);
      NextKeepsInv(Run(st, acts[..|acts| - 1]), acts[|acts| - 1]);
    }
  }

  predicate Holds(pc: Pc) { pc.Got? || pc.Done? }

  /** In every interleaving of selects, inserts, second selects, commits and rollbacks: all callers that
      hold a result hold the one row of the table, and a second select never comes back empty. */
  lemma AllReturnTheOneRow(st: State, acts: seq<Action>, c: nat)
    requires Initial(st) && (st.foreignClash ==> st.row.Some?) && c < |st.pcs|
    ensures var st' := Run(st, acts);
            && |st'.pcs| == |st.pcs| && st'.pcs[c] != Failed
            && (Holds(st'.pcs[c]) ==> st'.row.Some? && st'.row.value.id == st'.pcs[c].id)
            && (st'.pcs[c].Done? ==> st'.row.value.committed)
  {
    RunKeepsInv(st, acts);
    assert Agrees(Run(st, acts), c);
  }

  /** Exactly one caller creates: with the key absent at the start, once any caller has committed,
      exactly one caller has committed with `created` true, and no other caller holds such a result. */
  lemma ExactlyOneCreates(st: State, acts: seq<Action>, c: nat)
    requires Initial(st) && st.row.None? && !st.foreignClash
    requires c < |st.pcs| && |Run(st, acts).pcs| == |st.pcs| && Run(st, acts).pcs[c].Done?
    ensures exists w :: && 0 <= w < |st.pcs| && Run(st, acts).pcs[w] == Done(Run(st, acts).pcs[c].id, true)
                        && forall d :: 0 <= d < |st.pcs| && d != w && Holds(Run(st, acts).pcs[d]) ==> !Run(st, acts).pcs[d].created
  {
    var st' := Run(st, acts);
    RunKeepsInv(st, acts);
    OwnerIsCaller(st, acts);
    assert Agrees(st', c);
    var w := st'.row.value.owner;
    forall d | 0 <= d < |st.pcs| && d != w && Holds(st'.pcs[d]) ensures !st'.pcs[d].created {
      assert Agrees(st', d);
    }
  }

  lemma {:induction false} OwnerIsCaller(st: State, acts: seq<Action>)
    requires Initial(st) && st.row.None?
    ensures Run(st, acts).row.Some? ==> Run(st, acts).row.value.owner < |Run(st, acts).pcs|
    ensures |Run(st, acts).pcs| == |st.pcs|
    decreases |acts|
  {
    if acts != [] { OwnerIsCaller(st, acts[..|acts| - 1]); }
  }

  /** If the key was there already, nobody creates and everybody gets that row. */
  lemma NobodyRecreates(st: State, acts: seq<Action>, c: nat)
    requires Initial(st) && st.row.Some? && c < |st.pcs|
    ensures Run(st, acts).row == st.row && |Run(st, acts).pcs| == |st.pcs|
    ensures Holds(Run(st, acts).pcs[c]) ==> !Run(st, acts).pcs[c].created && Run(st, acts).pcs[c].id == st.row.value.id
  {
    RunKeepsInv(st, acts);
    assert Agrees(Run(st, acts), c);
  }

  lemma ClashFails(st: State, c: nat)
    requires Initial(st) && c < |st.pcs| && st.foreignClash && st.row.None?
    ensures var end := Run(st, [Select(c), Insert(c), Reselect(c)]);
            |end.pcs| == |st.pcs| && end.pcs[c] == Failed
  {
    var one, two, three := [Select(c)], [Select(c), Insert(c)], [Select(c), Insert(c), Reselect(c)];
    assert one[..0] == [] && two[..1] == one && three[..2] == two;
    assert Run(st, one) == At(st, c, Missed);
    assert Run(st, two) == At(Run(st, one), c, Lost);
  }

  /** The second select fails in some interleaving exactly when the key is absent and the insert can
      violate a constraint other than the one the select looks up. */
  lemma FailsExactlyOnForeignClash(st: State, c: nat)
    requires Initial(st) && c < |st.pcs|
    ensures (exists acts :: |Run(st, acts).pcs| == |st.pcs| && Run(st, acts).pcs[c] == Failed) <==> st.foreignClash && st.row.None?
  {
    if st.foreignClash && st.row.None? {
      ClashFails(st, c);
    } else {
      forall acts | |Run(st, acts).pcs| == |st.pcs| ensures Run(st, acts).pcs[c] != Failed {
        AllReturnTheOneRow(st, acts, c);
      }
    }
  }

  // ---------------------------------------------------------------- progress

  predicate Finished(pc: Pc) { pc.Done? || pc.Aborted? || pc.Failed? }

  /** Nobody waits for ever: while some caller is unfinished, some caller can take a step that is not a
      rollback. */
  lemma NoDeadlock(st: State, c: nat)
    requires Inv(st) && c < |st.pcs| && !Finished(st.pcs[c])
    ensures exists a :: Enabled(st, a) && !a.Abort?
  {
    if st.pcs[c] == Missed && Blocked(st, c) {
      assert Enabled(st, Commit(st.row.value.owner));
    } else {
      assert Enabled(st, Select(c)) || Enabled(st, Insert(c)) || Enabled(st, Reselect(c)) || Enabled(st, Commit(c));
    }
  }

  function StepsLeft(pc: Pc): nat {
    match pc
    case Start => 4
    case Missed => 3
    case Lost => 2
    case Got(_, _) => 1
    case _ => 0
  }

  function TotalLeft(pcs: seq<Pc>): nat {
    if pcs == [] then 0 else TotalLeft(pcs[..|pcs| - 1]) + StepsLeft(pcs[|pcs| - 1])
  }

  lemma {:induction false} TotalLeftUpdate(pcs: seq<Pc>, c: nat, pc: Pc)
    requires c < |pcs|
    ensures TotalLeft(pcs[c := pc]) == TotalLeft(pcs) - StepsLeft(pcs[c]) + StepsLeft(pc)
    decreases |pcs|
  {
    var n := |pcs| - 1;
    if c < n {
      TotalLeftUpdate(pcs[..n], c, pc);
      assert pcs[c := pc][..n] == pcs[..n][c := pc];
    } else {
      assert pcs[c := pc][..n] == pcs[..n];
    }
  }

  /** Every enabled step uses up some of a budget of four per caller, so every run ends. */
  lemma StepsAreBounded(st: State, a: Action)
    requires Enabled(st, a)
    ensures TotalLeft(Next(st, a).pcs) < TotalLeft(st.pcs)
  {
    TotalLeftUpdate(st.pcs, a.c, Next(st, a).pcs[a.c]);
  }

  /** A caller whose first select missed inserts a row with an id of its own, where the key and all other keys are free,
      and loses otherwise. */
  lemma InsertExactly(st: State, c: nat)
    requires c < |st.pcs| && st.pcs[c] == Missed && !Blocked(st, c)
    ensures var st' := Next(st, Insert(c));
            if st.row.None? && !st.foreignClash
            then st'.row == Some(Row(st.nextId, c, false)) && st'.nextId > st.nextId && st'.pcs == st.pcs[c := Got(st.nextId, true)]
            else st' == st.(pcs := st.pcs[c := Lost])
  {
  }

  /** Whoever is not finished can be rolled back at any time, which takes its own uncommitted row along and nothing
      else. */
  lemma AbortExactly(st: State, c: nat)
    requires Inv(st) && c < |st.pcs| && !Finished(st.pcs[c])
    ensures Enabled(st, Abort(c))
    ensures Next(st, Abort(c)).pcs == st.pcs[c := Aborted] && Next(st, Abort(c)).nextId == st.nextId
    ensures Next(st, Abort(c)).row == match st.pcs[c] case Got(_, true) => None case _ => st.row
  {
    assert Agrees(st, c);
  }
}
