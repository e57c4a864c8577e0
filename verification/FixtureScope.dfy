/** `with fixtures(bundle):` blocks: which store the calls inside a block consume, and what is left of
    the enclosing store when the block ends. */
module FixtureScope {
  import opened Prelude
  import opened Replay
  import opened ReplayQueues

  /** Programs: `Do` makes one instrumented call, whose live function fails when `liveFails`; `Block` is
      a `fixtures` block, live inside when there is no bundle or an empty dictionary; `Raise` and `Catch` are
      exceptions. */
  datatype Prog =
    | Skip
    | Then(first: Prog, rest: Prog)
    | Do(call: Call, liveFails: bool)
    | Block(bundle: Option<Bundle>, body: Prog)
    | Raise
    | Catch(body: Prog)

  /** `current` is the context variable: the number of the active store, if any. Stores are mutable
      objects, so all of them are kept. Each reply is logged with the store that was active. */
  datatype State = State(current: Option<nat>, stores: seq<Tape>, replies: seq<(Option<nat>, Reply)>)

  ghost predicate Valid(st: State) {
    st.current.Some? ==> st.current.value < |st.stores|
  }

  function OneCall(c: Call, st: State): State
    requires Valid(st)
  {
    if st.current.None? then st.(replies := st.replies + [(None, Live)])
    else
      var (t, e) := Step(st.stores[st.current.value], c);
      st.(stores := st.stores[st.current.value := t], replies := st.replies + [(st.current, Deliver(e))])
  }

  /** A block has a store of its own, or none. */
  function Enter(b: Option<Bundle>, st: State): State {
    if b.Some? then State(Some(|st.stores|), st.stores + [Tape(Recorded(b.value), Recorded(b.value))], st.replies)
    else st.(current := None)
  }

  function Exec(p: Prog, st: State): (r: (State, bool))
    requires Valid(st)
    ensures Valid(r.0) && |r.0.stores| >= |st.stores|
    ensures r.0.current == st.current
  {
    match p
    case Skip => (st, false)
    case Then(a, b) =>
      var (st1, raised) := Exec(a, st);
      if raised then (st1, true) else Exec(b, st1)
    case Do(c, liveFails) =>
      var st1 := OneCall(c, st);
      var reply := st1.replies[|st.replies|].1;
      (st1, reply.Raised? || (reply.Live? && liveFails))
    case Block(b, body) =>
      var entered := Enter(b, st);
      var (st1, raised) := Exec(body, entered);
      (st1.(current := st.current), raised)
    case Raise => (st, true)
    case Catch(body) => (Exec(body, st).0, false)
  }

  /** What the calls made while store `i` was active got. */
  function RepliesIn(log: seq<(Option<nat>, Reply)>, i: nat): seq<Reply> {
    if log == [] then []
    else
      var before, last := RepliesIn(log[..|log| - 1], i), log[|log| - 1];
      if last.0 == Some(i) then before + [last.1] else before
  }

  lemma RepliesSnoc(log: seq<(Option<nat>, Reply)>, r: (Option<nat>, Reply), i: nat)
    ensures RepliesIn(log + [r], i) == if r.0 == Some(i) then RepliesIn(log, i) + [r.1] else RepliesIn(log, i)
  {
    assert (log + [r])[..|log|] == log;
  }

  /** Only the active store is ever consumed, and only its calls are answered from it. */
  lemma {:induction false} OnlyCurrentStore(p: Prog, st: State, i: nat)
    requires Valid(st) && i < |st.stores| && st.current != Some(i)
    ensures Exec(p, st).0.stores[i] == st.stores[i]
    ensures RepliesIn(Exec(p, st).0.replies, i) == RepliesIn(st.replies, i)
    decreases p
  {
    match p
    case Then(a, b) =>
      OnlyCurrentStore(a, st, i);
      if !Exec(a, st).1 { OnlyCurrentStore(b, Exec(a, st).0, i); }
    case Block(b, body) =>
      var entered := Enter(b, st);
      OnlyCurrentStore(body, entered, i);
    case Catch(body) => OnlyCurrentStore(body, st, i);
    case Do(c, _) => RepliesSnoc(st.replies, OneCall(c, st).replies[|st.replies|], i);
    case _ =>
  }

  /** Whatever happens inside a block, normally or through an exception, and however blocks nest: the
      enclosing store is active again afterwards and exactly as full as it was before the block. */
  lemma BlockIsIsolated(b: Option<Bundle>, body: Prog, st: State)
    requires Valid(st)
    ensures var st' := Exec(Block(b, body), st).0;
            && st'.current == st.current
            && forall i :: 0 <= i < |st.stores| ==> st'.stores[i] == st.stores[i] && RepliesIn(st'.replies, i) == RepliesIn(st.replies, i)
  {
    var entered := Enter(b, st);
    forall i | 0 <= i < |st.stores|
      ensures Exec(Block(b, body), st).0.stores[i] == st.stores[i]
      ensures RepliesIn(Exec(Block(b, body), st).0.replies, i) == RepliesIn(st.replies, i)
    {
      OnlyCurrentStore(body, entered, i);
    }
  }

  /** The calls a program makes outside every inner block, up to where it stops. */
  function OwnCalls(p: Prog, st: State): seq<Call>
    requires Valid(st)
  {
    match p
    case Then(a, b) =>
      var (st1, raised) := Exec(a, st);
      OwnCalls(a, st) + if raised then [] else OwnCalls(b, st1)
    case Do(c, _) => [c]
    case Catch(body) => OwnCalls(body, st)
    case _ => []
  }

  lemma {:induction false} RunConcat(t: Tape, a: seq<Call>, b: seq<Call>)
    ensures Run(t, a + b).0 == Run(Run(t, a).0, b).0
    decreases |a|
  {
    if a == [] {
      assert a + b == b;
    } else {
      assert (a + b)[1..] == a[1..] + b;
      RunConcat(Step(t, a[0]).0, a[1..], b);
    }
  }

  lemma {:induction false} RunOutputs(t: Tape, a: seq<Call>, b: seq<Call>)
    ensures Run(t, a + b).1 == Run(t, a).1 + Run(Run(t, a).0, b).1
    decreases |a|
  {
    if a == [] {
      assert a + b == b;
      assert Run(t, a) == (t, []);
      assert [] + Run(t, b).1 == Run(t, b).1;
    } else {
      assert Run(t, a + b).1 == Run(t, a).1 + Run(Run(t, a).0, b).1 by {
        hide Run, Step;
        assert (a + b)[1..] == a[1..] + b && (a + b)[0] == a[0];
        RunCons(t, a + b);
        RunCons(t, a);
        RunOutputs(Step(t, a[0]).0, a[1..], b);
        Assoc([Step(t, a[0]).1], Run(Step(t, a[0]).0, a[1..]).1, Run(Run(t, a).0, b).1);
      }
    }
  }

  lemma Assoc<T>(a: seq<T>, b: seq<T>, c: seq<T>)
    ensures a + (b + c) == (a + b) + c
  {
  }

  function Delivered(out: seq<Option<Entry>>): (r: seq<Reply>)
    ensures |r| == |out|
    ensures forall i :: 0 <= i < |out| ==> r[i] == Deliver(out[i])
  {
    seq(|out|, i requires 0 <= i < |out| => Deliver(out[i]))
  }

  lemma DeliveredConcat(a: seq<Option<Entry>>, b: seq<Option<Entry>>)
    ensures Delivered(a + b) == Delivered(a) + Delivered(b)
  {
  }

  /** A block's store is consumed by exactly the block's own calls, in order, as one run over the
      bundle: inner blocks and caught exceptions in between make no difference. */
  lemma {:induction false} OwnCallsConsume(p: Prog, st: State)
    requires Valid(st) && st.current.Some?
    ensures Exec(p, st).0.stores[st.current.value] == Run(st.stores[st.current.value], OwnCalls(p, st)).0
    decreases p
  {
    var t := st.stores[st.current.value];
    match p
    case Then(a, b) =>
      OwnCallsConsume(a, st);
      var (st1, raised) := Exec(a, st);
      if !raised {
        OwnCallsConsume(b, st1);
        RunConcat(t, OwnCalls(a, st), OwnCalls(b, st1));
      } else {
        assert OwnCalls(a, st) + [] == OwnCalls(a, st);
      }
    case Do(c, _) =>
      RunCons(t, [c]);
    case Block(b, body) =>
      BlockIsIsolated(b, body, st);
    case Catch(body) =>
      OwnCallsConsume(body, st);
    case _ =>
  }

  /** ... and the block's own calls get exactly what that run delivers. */
  lemma {:induction false} OwnCallsAnswered(p: Prog, st: State)
    requires Valid(st) && st.current.Some?
    ensures RepliesIn(Exec(p, st).0.replies, st.current.value) ==
              RepliesIn(st.replies, st.current.value) + Delivered(Run(st.stores[st.current.value], OwnCalls(p, st)).1)
    decreases p
  {
    var i := st.current.value;
    var t := st.stores[i];
    match p
    case Then(a, b) =>
      var (st1, raised) := Exec(a, st);
      OwnCallsAnswered(a, st);
      if raised {
        assert OwnCalls(a, st) + [] == OwnCalls(a, st);
      } else {
        OwnCallsConsume(a, st);
        OwnCallsAnswered(b, st1);
        RunOutputs(t, OwnCalls(a, st), OwnCalls(b, st1));
        hide Run, RepliesIn;
        var mine, rest := Run(t, OwnCalls(a, st)).1, Run(st1.stores[i], OwnCalls(b, st1)).1;
        DeliveredConcat(mine, rest);
        Assoc(RepliesIn(st.replies, i), Delivered(mine), Delivered(rest));
      }
    case Do(c, _) =>
      RunCons(t, [c]);
      RepliesSnoc(st.replies, OneCall(c, st).replies[|st.replies|], i);
    case Block(b, body) =>
      BlockIsIsolated(b, body, st);
    case Catch(body) =>
      OwnCallsAnswered(body, st);
    case _ =>
  }

  /** A block starts from its own bundle, whatever store encloses it: its calls meet what a run over the bundle
      delivers. */
  lemma BlockServesItsBundle(b: Bundle, body: Prog, st: State, own: Tape, entered: State)
    requires Valid(st) && own == Tape(Recorded(b), Recorded(b))
    requires entered == State(Some(|st.stores|), st.stores + [own], st.replies)
    ensures RepliesIn(Exec(Block(Some(b), body), st).0.replies, |st.stores|) ==
              RepliesIn(st.replies, |st.stores|) + Delivered(Run(own, OwnCalls(body, entered)).1)
  {
    OwnCallsAnswered(body, entered);
    assert entered.stores[|st.stores|] == own && entered.replies == st.replies;
    BlockReplies(b, body, st, entered);
  }

  lemma BlockReplies(b: Bundle, body: Prog, st: State, entered: State)
    requires Valid(st) && entered == State(Some(|st.stores|), st.stores + [Tape(Recorded(b), Recorded(b))], st.replies)
    ensures Exec(Block(Some(b), body), st).0.replies == Exec(body, entered).0.replies
  {
  }

  /** Outside every bundle nothing is served: each call runs live. */
  lemma {:induction false} NoBundleIsLive(p: Prog, st: State)
    requires Valid(st)
    ensures st.replies <= Exec(p, st).0.replies
    ensures forall r <- Exec(p, st).0.replies[|st.replies|..] :: r.0.None? ==> r.1.Live?
    ensures forall b: Option<Bundle> :: b.None? ==> Exec(Block(b, p), st).0.replies == Exec(p, st.(current := None)).0.replies
    decreases p
  {
    match p
    case Then(a, b) =>
      NoBundleIsLive(a, st);
      var st1 := Exec(a, st).0;
      NoBundleIsLive(b, st1);
      assert Exec(b, st1).0.replies[|st.replies|..] == st1.replies[|st.replies|..] + Exec(b, st1).0.replies[|st1.replies|..];
    case Block(b, body) =>
      NoBundleIsLive(body, Enter(b, st));
    case Catch(body) => NoBundleIsLive(body, st);
    case _ =>
  }

  /** A call raises exactly when a recorded error is served to it, or when it runs live and fails; a caught exception goes
      no further. */
  lemma CallRaises(c: Call, liveFails: bool, body: Prog, st: State)
    requires Valid(st)
    ensures var (st', raised) := Exec(Do(c, liveFails), st);
            && |st'.replies| == |st.replies| + 1
            && raised == match st'.replies[|st.replies|].1 case Raised(_) => true case Returned(_) => false case Live => liveFails
    ensures Exec(Raise, st) == (st, true) && Exec(Skip, st) == (st, false) && !Exec(Catch(body), st).1
  {
    hide Step, Recorded;
  }

  /** An exception skips what follows it, and leaves every block it was raised in. */
  lemma RaisePropagates(a: Prog, b: Prog, bundle: Option<Bundle>, st: State)
    requires Valid(st)
    ensures Exec(a, st).1 ==> Exec(Then(a, b), st) == Exec(a, st)
    ensures !Exec(a, st).1 ==> Exec(Then(a, b), st) == Exec(b, Exec(a, st).0)
    ensures var entered :=
              match bundle
              case None => State(None, st.stores, st.replies)
              case Some(own) => State(Some(|st.stores|), st.stores + [Tape(Recorded(own), Recorded(own))], st.replies);
            Exec(Block(bundle, a), st).1 == Exec(a, entered).1
  {
    hide Recorded, Step;
  }
}
