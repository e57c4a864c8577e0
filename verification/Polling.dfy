/** Waiting for started gates under one shared deadline: what a gate's poll comes to depends on when its turn
    comes, and so on the order of the agents. */
module Polling {
  import opened Prelude

  /** One answer to a poll: finished with a status, still running, an HTTP or URL error, a read that times out,
      anything else. */
  datatype PollReply = Finished(status: string) | Running | Unreadable | Stalled | Broken

  /** What polling a gate comes to; `Stall` is the read's own timeout, which the command catches with its own. */
  datatype Poll = Verdict(status: string) | TimedOut | Stall | ReadError | Crash

  /** The world: what the server answers about an agent's gate at a time, and how long that read takes. */
  datatype Env = Env(answer: (string, real) -> PollReply, busy: (string, real) -> real)

  function Took(e: Env, a: string, t: real): real {
    if e.busy(a, t) > 0.0 then e.busy(a, t) else 0.0
  }

  const NAP: real := 5.0

  /** The reply that ends the polling. */
  function Ended(r: PollReply): Poll
    requires !r.Running?
  {
    match r
    case Finished(s) => Verdict(s)
    case Unreadable => ReadError
    case Stalled => Stall
    case Broken => Crash
  }

  // ---------------------------------------------------------------- one gate

  /** Polling from `now` until `deadline`: the outcome, and the time at which it is known. */
  function PollFrom(e: Env, a: string, now: real, deadline: real): (Poll, real)
    decreases if now < deadline then deadline - now + NAP else 0.0
  {
    if now >= deadline then (TimedOut, now)
    else
      var reply, after := e.answer(a, now), now + Took(e, a, now);
      if reply != Running then (Ended(reply), after) else PollFrom(e, a, after + NAP, deadline)
  }

  /** `poll_gate`. */
  method PollGate(e: Env, a: string, now: real, timeout: nat) returns (r: Poll, after: real)
    ensures (r, after) == PollFrom(e, a, now, now + timeout as real)
  {
    var deadline := now + timeout as real;
    after := now;
    while after < deadline
      invariant PollFrom(e, a, now, deadline) == PollFrom(e, a, after, deadline)
      decreases if after < deadline then deadline - after + NAP else 0.0
    {
      var reply := e.answer(a, after);
      var read := after + Took(e, a, after);
      if reply != Running {
        return Ended(reply), read;
      }
      after := read + NAP;
    }
    r := TimedOut;
  }

  /** When the poll numbered `k` would be sent, were all before it answered "running". */
  function AskedAt(e: Env, a: string, now: real, k: nat): real
    decreases k
  {
    if k == 0 then now else AskedAt(e, a, now + Took(e, a, now) + NAP, k - 1)
  }

  /** Between two polls there is the read, and five seconds. */
  lemma {:induction false} AskedEvery(e: Env, a: string, now: real, k: nat)
    ensures var t := AskedAt(e, a, now, k);
            AskedAt(e, a, now, k + 1) == t + Took(e, a, t) + 5.0
    decreases k
  {
    if k > 0 { AskedEvery(e, a, now + Took(e, a, now) + NAP, k - 1); }
  }

  /** The first `k` polls were answered "running". */
  ghost predicate RunningUntil(e: Env, a: string, now: real, k: nat) {
    forall i: nat :: i < k ==> e.answer(a, AskedAt(e, a, now, i)) == Running
  }

  lemma RunningShift(e: Env, a: string, now: real, k: nat)
    requires e.answer(a, now) == Running
    ensures RunningUntil(e, a, now, k + 1) <==> RunningUntil(e, a, now + Took(e, a, now) + NAP, k)
  {
    var next := now + Took(e, a, now) + NAP;
    forall i: nat ensures AskedAt(e, a, now, i + 1) == AskedAt(e, a, next, i) {}
    if RunningUntil(e, a, now, k + 1) {
      forall i: nat | i < k ensures e.answer(a, AskedAt(e, a, next, i)) == Running {
        assert e.answer(a, AskedAt(e, a, now, i + 1)) == Running;
      }
    }
    if RunningUntil(e, a, next, k) {
      forall i: nat | i < k + 1 ensures e.answer(a, AskedAt(e, a, now, i)) == Running {
        if i > 0 { assert e.answer(a, AskedAt(e, a, next, i - 1)) == Running; }
      }
    }
  }

  /** The first reply that is not "running" decides, provided it is asked for before the deadline. */
  ghost predicate DecidedAt(e: Env, a: string, now: real, deadline: real, k: nat, r: Poll) {
    && AskedAt(e, a, now, k) < deadline && RunningUntil(e, a, now, k)
    && EndsAs(e.answer(a, AskedAt(e, a, now, k)), r)
  }

  /** A finished gate gives its status; an HTTP error, a stalled read and any other failure are told apart. */
  predicate EndsAs(reply: PollReply, r: Poll) {
    match reply
    case Running => false
    case Finished(status) => r == Verdict(status)
    case Unreadable => r == ReadError
    case Stalled => r == Stall
    case Broken => r == Crash
  }

  /** A gate is waited for until the first reply that is not "running", if that is asked for before the deadline;
      otherwise, and only then, the poll times out. */
  lemma {:induction false} PollMeaning(e: Env, a: string, now: real, deadline: real)
    ensures PollFrom(e, a, now, deadline).0 == TimedOut <==>
              exists k: nat :: AskedAt(e, a, now, k) >= deadline && RunningUntil(e, a, now, k)
    ensures PollFrom(e, a, now, deadline).0 != TimedOut ==>
              exists k: nat :: DecidedAt(e, a, now, deadline, k, PollFrom(e, a, now, deadline).0)
    decreases if now < deadline then deadline - now + NAP else 0.0
  {
    if now >= deadline {
      assert AskedAt(e, a, now, 0) >= deadline && RunningUntil(e, a, now, 0);
    } else if e.answer(a, now) != Running {
      assert DecidedAt(e, a, now, deadline, 0, PollFrom(e, a, now, deadline).0);
      forall k: nat | k > 0 ensures !RunningUntil(e, a, now, k) {
        assert AskedAt(e, a, now, 0) == now;
      }
    } else {
      var next := now + Took(e, a, now) + NAP;
      PollMeaning(e, a, next, deadline);
      if k: nat :| AskedAt(e, a, next, k) >= deadline && RunningUntil(e, a, next, k) {
        RunningShift(e, a, now, k);
        assert AskedAt(e, a, now, k + 1) >= deadline && RunningUntil(e, a, now, k + 1);
      }
      if k: nat :| AskedAt(e, a, now, k) >= deadline && RunningUntil(e, a, now, k) {
        RunningShift(e, a, now, k - 1);
        assert AskedAt(e, a, next, k - 1) >= deadline && RunningUntil(e, a, next, k - 1);
      }
      if k: nat :| DecidedAt(e, a, next, deadline, k, PollFrom(e, a, next, deadline).0) {
        RunningShift(e, a, now, k);
        assert DecidedAt(e, a, now, deadline, k + 1, PollFrom(e, a, next, deadline).0);
      }
    }
  }

  // ---------------------------------------------------------------- one budget for all gates

  /** `int(max(0, deadline - time.time()))`. */
  function Remaining(now: real, deadline: real): nat {
    if now < deadline then (deadline - now).Floor else 0
  }

  /** When the poll that starts at `now` gives up: the shared budget, cut to whole seconds. */
  function GivesUp(now: real, deadline: real): real { now + Remaining(now, deadline) as real }

  /** One poll after the other, each with what is left. */
  function Polls(e: Env, order: seq<string>, now: real, deadline: real): (ps: seq<Poll>)
    ensures |ps| == |order|
  {
    if order == [] then []
    else
      var (p, after) := PollFrom(e, order[0], now, GivesUp(now, deadline));
      [p] + Polls(e, order[1..], after, deadline)
  }

  /** What the command learns of a gate: its status, or that it got none. */
  function Shown(p: Poll): Option<string> {
    if p.Verdict? then Some(p.status) else None
  }

  /** ... of every gate, by agent. */
  function Statuses(e: Env, order: seq<string>, now: real, deadline: real): (m: map<string, Option<string>>)
    ensures forall a :: a in m <==> a in order
  {
    if order == [] then map[]
    else
      var (p, after) := PollFrom(e, order[0], now, GivesUp(now, deadline));
      Statuses(e, order[1..], after, deadline)[order[0] := Shown(p)]
  }

  /** The server said so, in time. */
  ghost predicate Said(e: Env, a: string, from: real, deadline: real, status: string) {
    exists t :: from <= t < deadline && e.answer(a, t) == Finished(status)
  }

  lemma {:induction false} VerdictSaid(e: Env, a: string, now: real, deadline: real)
    requires PollFrom(e, a, now, deadline).0.Verdict?
    ensures Said(e, a, now, deadline, PollFrom(e, a, now, deadline).0.status)
    decreases if now < deadline then deadline - now + NAP else 0.0
  {
    if e.answer(a, now) == Running {
      VerdictSaid(e, a, now + Took(e, a, now) + NAP, deadline);
    }
  }

  lemma {:induction false} NotBackwards(e: Env, a: string, now: real, deadline: real)
    ensures PollFrom(e, a, now, deadline).1 >= now
    decreases if now < deadline then deadline - now + NAP else 0.0
  {
    if now < deadline && e.answer(a, now) == Running { NotBackwards(e, a, now + Took(e, a, now) + NAP, deadline); }
  }

  /** A status that is learnt is one the server gave about that gate, asked within the budget. */
  lemma {:induction false} StatusSaid(e: Env, order: seq<string>, now: real, deadline: real, a: string)
    requires a in order && Statuses(e, order, now, deadline)[a].Some?
    ensures Said(e, a, now, deadline, Statuses(e, order, now, deadline)[a].value)
    decreases |order|
  {
    var until := GivesUp(now, deadline);
    if a == order[0] {
      VerdictSaid(e, a, now, until);
    } else {
      NotBackwards(e, order[0], now, until);
      StatusSaid(e, order[1..], PollFrom(e, order[0], now, until).1, deadline, a);
    }
  }

  /** A request about the gate failed in a way the command does not catch. */
  ghost predicate Breaks(e: Env, a: string, from: real, deadline: real) {
    exists t :: from <= t < deadline && e.answer(a, t) == Broken
  }

  lemma {:induction false} CrashBreaks(e: Env, a: string, now: real, deadline: real)
    requires PollFrom(e, a, now, deadline).0 == Crash
    ensures Breaks(e, a, now, deadline)
    decreases if now < deadline then deadline - now + NAP else 0.0
  {
    if e.answer(a, now) == Running { CrashBreaks(e, a, now + Took(e, a, now) + NAP, deadline); }
  }

  /** An uncaught error is one the server caused about some gate, asked within the budget. */
  lemma {:induction false} CrashesBreak(e: Env, order: seq<string>, now: real, deadline: real)
    requires Crash in Polls(e, order, now, deadline)
    ensures exists a <- order :: Breaks(e, a, now, deadline)
    decreases |order|
  {
    var until := GivesUp(now, deadline);
    if PollFrom(e, order[0], now, until).0 == Crash {
      CrashBreaks(e, order[0], now, until);
      assert order[0] in order && Breaks(e, order[0], now, deadline);
    } else {
      var after := PollFrom(e, order[0], now, until).1;
      NotBackwards(e, order[0], now, until);
      CrashesBreak(e, order[1..], after, deadline);
      var a :| a in order[1..] && Breaks(e, a, after, deadline);
      assert a in order && Breaks(e, a, now, deadline);
    }
  }

  predicate Distinct(agents: seq<string>) { forall i, j :: 0 <= i < j < |agents| ==> agents[i] != agents[j] }

  lemma {:induction false} StatusAt(e: Env, order: seq<string>, now: real, deadline: real, i: nat)
    requires Distinct(order) && i < |order|
    ensures Statuses(e, order, now, deadline)[order[i]] == Shown(Polls(e, order, now, deadline)[i])
  {
    if i > 0 {
      StatusAt(e, order[1..], PollFrom(e, order[0], now, GivesUp(now, deadline)).1, deadline, i - 1);
    }
  }

  /** A poll that uses up its budget leaves less than a second. */
  lemma {:induction false} TimeoutSpends(e: Env, a: string, now: real, until: real)
    requires PollFrom(e, a, now, until).0 == TimedOut
    ensures PollFrom(e, a, now, until).1 >= until
    decreases if now < until then until - now + NAP else 0.0
  {
    if now < until {
      TimeoutSpends(e, a, now + Took(e, a, now) + NAP, until);
    }
  }

  lemma {:induction false} Starved(e: Env, order: seq<string>, now: real, deadline: real)
    requires now > deadline - 1.0
    ensures forall a <- order :: Statuses(e, order, now, deadline)[a] == None
  {
    if order != [] {
      assert Remaining(now, deadline) == 0;
      Starved(e, order[1..], now, deadline);
    }
  }

  /** One gate that uses up the budget takes every gate behind it along, whatever their state. */
  lemma FirstStarvesAll(e: Env, order: seq<string>, now: real, deadline: real)
    requires order != [] && PollFrom(e, order[0], now, GivesUp(now, deadline)).0 == TimedOut
    ensures forall a <- order :: Statuses(e, order, now, deadline)[a] == None
  {
    TimeoutSpends(e, order[0], now, GivesUp(now, deadline));
    Starved(e, order[1..], PollFrom(e, order[0], now, GivesUp(now, deadline)).1, deadline);
  }

  // ---------------------------------------------------------------- when the order does not matter

  predicate Reorders(agents: seq<string>, order: seq<string>) { multiset(order) == multiset(agents) }

  /** Every order of the agents learns the same of every gate. */
  ghost predicate OrderFree(e: Env, agents: seq<string>, now: real, deadline: real) {
    forall order :: Reorders(agents, order) ==> Statuses(e, order, now, deadline) == Statuses(e, agents, now, deadline)
  }

  /** In every order every gate is answered. */
  ghost predicate AlwaysAnswered(e: Env, agents: seq<string>, now: real, deadline: real) {
    forall order :: Reorders(agents, order) ==> AllAnswered(Statuses(e, order, now, deadline))
  }

  /** In some order every gate is answered. */
  ghost predicate SomehowAnswered(e: Env, agents: seq<string>, now: real, deadline: real) {
    exists order :: Reorders(agents, order) && AllAnswered(Statuses(e, order, now, deadline))
  }

  predicate AllAnswered(m: map<string, Option<string>>) { forall a :: a in m ==> m[a].Some? }

  predicate AnswersFirst(e: Env, a: string, now: real, deadline: real) {
    PollFrom(e, a, now, GivesUp(now, deadline)).0.Verdict?
  }

  /** Reads do not fail, and a gate that has finished keeps its status. */
  ghost predicate Steady(e: Env, agents: seq<string>, status: string -> string) {
    forall a, t :: a in agents ==> e.answer(a, t) == Running || e.answer(a, t) == Finished(status(a))
  }

  lemma {:induction false} SteadyPoll(e: Env, agents: seq<string>, status: string -> string, a: string, now: real, until: real)
    requires Steady(e, agents, status) && a in agents
    ensures PollFrom(e, a, now, until).0 in {TimedOut, Verdict(status(a))}
    decreases if now < until then until - now + NAP else 0.0
  {
    if now < until && e.answer(a, now) == Running {
      SteadyPoll(e, agents, status, a, now + Took(e, a, now) + NAP, until);
    }
  }

  lemma {:induction false} SteadyStatuses(e: Env, order: seq<string>, status: string -> string, now: real, deadline: real)
    requires Steady(e, order, status)
    ensures forall a <- order :: Statuses(e, order, now, deadline)[a] in {None, Some(status(a))}
  {
    if order != [] {
      SteadyPoll(e, order, status, order[0], now, GivesUp(now, deadline));
      assert forall a <- order[1..] :: a in order;
      SteadyStatuses(e, order[1..], status, PollFrom(e, order[0], now, GivesUp(now, deadline)).1, deadline);
    }
  }

  lemma ReorderIn(agents: seq<string>, order: seq<string>, a: string)
    requires Reorders(agents, order)
    ensures a in order <==> a in agents
  {
    assert a in multiset(order) <==> a in multiset(agents);
  }

  /** An order in which `a` comes first. */
  lemma BringFirst(agents: seq<string>, a: string) returns (order: seq<string>)
    requires a in agents
    ensures Reorders(agents, order) && order != [] && order[0] == a
  {
    var i :| 0 <= i < |agents| && agents[i] == a;
    order := [a] + Without(agents, i);
    WithoutMultiset(agents, i);
  }

  lemma SameStatuses(agents: seq<string>, m: map<string, Option<string>>, m': map<string, Option<string>>)
    requires (forall a :: a in m <==> a in agents) && (forall a :: a in m' <==> a in agents)
    requires forall a <- agents :: m[a] == m'[a]
    ensures m == m'
  {
  }

  /** A first gate that is not answered in time leaves every gate without an answer, in its order. */
  lemma UnansweredFirst(e: Env, agents: seq<string>, status: string -> string, order: seq<string>, now: real, deadline: real)
    requires Steady(e, agents, status) && Reorders(agents, order) && order != [] && !AnswersFirst(e, order[0], now, deadline)
    ensures forall a <- agents :: a in order && Statuses(e, order, now, deadline)[a] == None
  {
    forall a ensures a in order <==> a in agents { ReorderIn(agents, order, a); }
    SteadyPoll(e, agents, status, order[0], now, GivesUp(now, deadline));
    FirstStarvesAll(e, order, now, deadline);
  }

  lemma AnsweredStatuses(e: Env, agents: seq<string>, status: string -> string, order: seq<string>, now: real, deadline: real)
    requires Steady(e, agents, status) && Reorders(agents, order) && AllAnswered(Statuses(e, order, now, deadline))
    ensures forall a <- agents :: a in order && Statuses(e, order, now, deadline)[a] == Some(status(a))
  {
    forall a ensures a in order <==> a in agents { ReorderIn(agents, order, a); }
    SteadyStatuses(e, order, status, now, deadline);
  }

  /** Exactly when the order of the agents does not matter, whatever the reads take: when no gate would be
      answered if it were polled first, or when every gate is answered wherever it stands in line. */
  lemma OrderFreeExactly(e: Env, agents: seq<string>, status: string -> string, now: real, deadline: real)
    requires Steady(e, agents, status)
    ensures OrderFree(e, agents, now, deadline) <==>
              (forall a <- agents :: !AnswersFirst(e, a, now, deadline)) || AlwaysAnswered(e, agents, now, deadline)
  {
    if forall a <- agents :: !AnswersFirst(e, a, now, deadline) {
      NobodyAnswered(e, agents, status, now, deadline);
    } else if AlwaysAnswered(e, agents, now, deadline) {
      EverybodyAnswered(e, agents, status, now, deadline);
    } else {
      var a :| a in agents && AnswersFirst(e, a, now, deadline);
      var order :| Reorders(agents, order) && !AllAnswered(Statuses(e, order, now, deadline));
      MixedMatters(e, agents, status, now, deadline, a, order);
    }
  }

  lemma NobodyAnswered(e: Env, agents: seq<string>, status: string -> string, now: real, deadline: real)
    requires Steady(e, agents, status) && forall a <- agents :: !AnswersFirst(e, a, now, deadline)
    ensures OrderFree(e, agents, now, deadline)
  {
    forall order | Reorders(agents, order) ensures Statuses(e, order, now, deadline) == Statuses(e, agents, now, deadline) {
      forall a ensures a in order <==> a in agents { ReorderIn(agents, order, a); }
      if agents != [] {
        assert agents[0] in agents && |multiset(order)| == |multiset(agents)|;
        assert order[0] in order;
        UnansweredFirst(e, agents, status, order, now, deadline);
        UnansweredFirst(e, agents, status, agents, now, deadline);
      }
      SameStatuses(agents, Statuses(e, order, now, deadline), Statuses(e, agents, now, deadline));
    }
  }

  lemma EverybodyAnswered(e: Env, agents: seq<string>, status: string -> string, now: real, deadline: real)
    requires Steady(e, agents, status) && AlwaysAnswered(e, agents, now, deadline)
    ensures OrderFree(e, agents, now, deadline)
  {
    assert Reorders(agents, agents);
    AnsweredStatuses(e, agents, status, agents, now, deadline);
    forall order | Reorders(agents, order) ensures Statuses(e, order, now, deadline) == Statuses(e, agents, now, deadline) {
      forall a ensures a in order <==> a in agents { ReorderIn(agents, order, a); }
      AnsweredStatuses(e, agents, status, order, now, deadline);
      SameStatuses(agents, Statuses(e, order, now, deadline), Statuses(e, agents, now, deadline));
    }
  }

  lemma MixedMatters(e: Env, agents: seq<string>, status: string -> string, now: real, deadline: real, a: string, order: seq<string>)
    requires Steady(e, agents, status) && a in agents && AnswersFirst(e, a, now, deadline)
    requires Reorders(agents, order) && !AllAnswered(Statuses(e, order, now, deadline))
    ensures !OrderFree(e, agents, now, deadline)
  {
    if OrderFree(e, agents, now, deadline) {
      var m := Statuses(e, agents, now, deadline);
      var b :| b in m && m[b] == None;
      var aFirst := BringFirst(agents, a);
      assert Statuses(e, aFirst, now, deadline) == m && m[a].Some?;
      var bFirst := BringFirst(agents, b);
      assert Statuses(e, bFirst, now, deadline) == m;
      UnansweredFirst(e, agents, status, bFirst, now, deadline);
      assert false;
    }
  }

  // ---------------------------------------------------------------- enough time for everybody

  /** From time `f` on the gate is finished. */
  ghost predicate FinishedBy(e: Env, a: string, f: real) {
    forall t :: t >= f ==> e.answer(a, t).Finished?
  }

  ghost predicate ReadsWithin(e: Env, agents: seq<string>, r: real) {
    forall a, t :: a in agents ==> Took(e, a, t) <= r
  }

  /** The time `n` reads may take. */
  function Reads(n: nat, r: real): real { if n == 0 then 0.0 else r + Reads(n - 1, r) }

  lemma {:induction false} AnsweredBy(e: Env, agents: seq<string>, a: string, now: real, until: real, f: real, r: real, limit: real)
    requires a in agents && ReadsWithin(e, agents, r) && FinishedBy(e, a, f)
    requires forall t :: e.answer(a, t) == Running || e.answer(a, t).Finished?
    requires now <= limit && f + r + NAP <= limit < until
    ensures PollFrom(e, a, now, until).0.Verdict? && PollFrom(e, a, now, until).1 <= limit + r
    decreases if now < until then until - now + NAP else 0.0
  {
    assert Took(e, a, now) <= r;
    if e.answer(a, now) == Running {
      assert now < f;
      AnsweredBy(e, agents, a, now + Took(e, a, now) + NAP, until, f, r, limit);
    }
  }

  lemma {:induction false} LineAnswered(e: Env, agents: seq<string>, order: seq<string>, now: real, deadline: real, f: real, r: real, limit: real)
    requires ReadsWithin(e, agents, r) && r >= 0.0
    requires forall a <- order :: a in agents && FinishedBy(e, a, f) && forall t :: e.answer(a, t) == Running || e.answer(a, t).Finished?
    requires now <= limit && f + r + NAP <= limit
    requires order != [] ==> limit + Reads(|order| - 1, r) <= deadline - 1.0
    ensures AllAnswered(Statuses(e, order, now, deadline))
    decreases |order|
  {
    if order != [] {
      var a, rest := order[0], order[1..];
      ReadsNonNegative(|order| - 1, r);
      AnsweredBy(e, agents, a, now, GivesUp(now, deadline), f, r, limit);
      assert forall b <- rest :: b in order;
      LineAnswered(e, agents, rest, PollFrom(e, a, now, GivesUp(now, deadline)).1, deadline, f, r, limit + r);
    }
  }

  lemma {:induction false} ReadsNonNegative(n: nat, r: real)
    requires r >= 0.0
    ensures Reads(n, r) >= 0.0
  {
    if n > 0 { ReadsNonNegative(n - 1, r); }
  }

  /** If every gate has finished by time `f` and no read takes longer than `r`, then everybody is answered in
      every order, provided the last in line can still be asked a second before the deadline: one nap and one
      read after `f`, or at the start if that is later, plus a read for everybody before it. */
  lemma EnoughTime(e: Env, agents: seq<string>, status: string -> string, now: real, deadline: real, f: real, r: real)
    requires Steady(e, agents, status) && ReadsWithin(e, agents, r) && r >= 0.0 && agents != []
    requires forall a <- agents :: FinishedBy(e, a, f)
    requires (if now > f + r + NAP then now else f + r + NAP) + Reads(|agents| - 1, r) <= deadline - 1.0
    ensures AlwaysAnswered(e, agents, now, deadline) && OrderFree(e, agents, now, deadline)
  {
    forall order | Reorders(agents, order) ensures AllAnswered(Statuses(e, order, now, deadline)) {
      forall a ensures a in order <==> a in agents { ReorderIn(agents, order, a); }
      assert |multiset(order)| == |multiset(agents)|;
      LineAnswered(e, agents, order, now, deadline, f, r, if now > f + r + NAP then now else f + r + NAP);
    }
    OrderFreeExactly(e, agents, status, now, deadline);
  }

  // ---------------------------------------------------------------- too little time for everybody

  /** Before time `f` the gate is still running. */
  ghost predicate RunningBefore(e: Env, a: string, f: real) {
    forall t :: t < f ==> e.answer(a, t) == Running
  }

  ghost predicate ReadsAtLeast(e: Env, agents: seq<string>, r: real) {
    forall a, t :: a in agents ==> Took(e, a, t) >= r
  }

  /** A verdict takes a read after the poll began, and after the gate has finished. */
  lemma {:induction false} KnownAfter(e: Env, agents: seq<string>, a: string, now: real, until: real, f: real, r: real)
    requires a in agents && ReadsAtLeast(e, agents, r) && r >= 0.0 && PollFrom(e, a, now, until).0 != TimedOut
    ensures PollFrom(e, a, now, until).1 >= now + r
    ensures RunningBefore(e, a, f) ==> PollFrom(e, a, now, until).1 >= f + r
    decreases if now < until then until - now + NAP else 0.0
  {
    assert Took(e, a, now) >= r;
    if e.answer(a, now) == Running {
      KnownAfter(e, agents, a, now + Took(e, a, now) + NAP, until, f, r);
    }
  }

  /** A line is answered exactly when the first in it is, and then the others in what is left. */
  lemma AnsweredRest(e: Env, order: seq<string>, now: real, deadline: real)
    requires Distinct(order) && order != []
    ensures AllAnswered(Statuses(e, order, now, deadline)) <==>
              && AnswersFirst(e, order[0], now, deadline)
              && AllAnswered(Statuses(e, order[1..], PollFrom(e, order[0], now, GivesUp(now, deadline)).1, deadline))
  {
    var (p, after) := PollFrom(e, order[0], now, GivesUp(now, deadline));
    var rest := Statuses(e, order[1..], after, deadline);
    var all := Statuses(e, order, now, deadline);
    hide PollFrom, GivesUp;
    assert all == rest[order[0] := Shown(p)];
    assert order[0] !in rest;
    if AllAnswered(all) {
      assert all[order[0]].Some?;
      forall a | a in rest ensures rest[a].Some? { assert all[a] == rest[a]; }
    }
  }

  /** Everybody in the line is answered, in turn. */
  predicate Served(e: Env, order: seq<string>, now: real, deadline: real) {
    order == [] || (&& AnswersFirst(e, order[0], now, deadline)
                    && Served(e, order[1..], PollFrom(e, order[0], now, GivesUp(now, deadline)).1, deadline))
  }

  lemma {:induction false} ServedExactly(e: Env, order: seq<string>, now: real, deadline: real)
    requires Distinct(order)
    ensures Served(e, order, now, deadline) <==> AllAnswered(Statuses(e, order, now, deadline))
    decreases |order|
  {
    if order != [] {
      AnsweredRest(e, order, now, deadline);
      ServedExactly(e, order[1..], PollFrom(e, order[0], now, GivesUp(now, deadline)).1, deadline);
    }
  }

  /** A line that is answered leaves its last gate a second, after a read for everybody before it. */
  lemma {:induction false} LineTakes(e: Env, agents: seq<string>, order: seq<string>, now: real, deadline: real, r: real)
    requires ReadsAtLeast(e, agents, r) && r >= 0.0 && order != [] && forall a <- order :: a in agents
    requires Served(e, order, now, deadline)
    ensures now + Reads(|order| - 1, r) <= deadline - 1.0
    decreases |order|
  {
    if |order| > 1 {
      var first, rest := order[0], order[1..];
      KnownAfter(e, agents, first, now, GivesUp(now, deadline), now, r);
      forall a <- rest ensures a in agents { assert a in order; }
      LineTakes(e, agents, rest, PollFrom(e, first, now, GivesUp(now, deadline)).1, deadline, r);
    }
  }

  /** The other side of `EnoughTime`: if some gate is still running at time `f`, or starts to be asked then, and no read
      takes less than `r`, then with that gate first somebody is not answered, as soon as a read for everybody but
      the last does not fit between that time and a second before the deadline. */
  lemma TooLittleTime(e: Env, agents: seq<string>, status: string -> string, now: real, deadline: real, a: string, f: real, r: real)
    requires Steady(e, agents, status) && Distinct(agents) && |agents| > 1 && a in agents
    requires ReadsAtLeast(e, agents, r) && r >= 0.0 && RunningBefore(e, a, f)
    requires (if now > f then now else f) + Reads(|agents| - 1, r) > deadline - 1.0
    ensures !AlwaysAnswered(e, agents, now, deadline)
    ensures OrderFree(e, agents, now, deadline) <==> forall b <- agents :: !AnswersFirst(e, b, now, deadline)
  {
    var order := BringFirst(agents, a);
    ReordersDistinct(agents, order);
    forall b ensures b in order <==> b in agents { ReorderIn(agents, order, b); }
    hide Statuses, AllAnswered, Served, PollFrom, Distinct, Reads, ReadsAtLeast, RunningBefore, Steady;
    ServedExactly(e, order, now, deadline);
    if Served(e, order, now, deadline) { LateFirst(e, agents, order, now, deadline, f, r); }
    OrderFreeExactly(e, agents, status, now, deadline);
  }

  /** An answered line leaves room for a read of every gate but the last after its first gate has finished. */
  lemma LateFirst(e: Env, agents: seq<string>, order: seq<string>, now: real, deadline: real, f: real, r: real)
    requires |order| > 1 && forall b <- order :: b in agents
    requires ReadsAtLeast(e, agents, r) && r >= 0.0 && RunningBefore(e, order[0], f)
    requires Served(e, order, now, deadline)
    ensures (if now > f then now else f) + Reads(|order| - 1, r) <= deadline - 1.0
  {
    KnownAfter(e, agents, order[0], now, GivesUp(now, deadline), f, r);
    assert forall b <- order[1..] :: b in order;
    assert Reads(|order| - 1, r) == r + Reads(|order| - 2, r);
    LineTakes(e, agents, order[1..], PollFrom(e, order[0], now, GivesUp(now, deadline)).1, deadline, r);
  }

  lemma ReordersDistinct(agents: seq<string>, order: seq<string>)
    requires Reorders(agents, order) && Distinct(agents)
    ensures Distinct(order) && |order| == |agents|
  {
    assert |multiset(order)| == |multiset(agents)|;
    forall i, j | 0 <= i < j < |order| ensures order[i] != order[j] {
      OnceOnly(agents, order[i]);
      if order[i] == order[j] { Twice(order, i, j); }
    }
  }

  lemma Twice(s: seq<string>, i: nat, j: nat)
    requires i < j < |s| && s[i] == s[j]
    ensures multiset(s)[s[i]] >= 2
  {
    WithoutMultiset(s, j);
    assert Without(s, j)[i] == s[i];
    assert s[i] in multiset(Without(s, j));
  }

  lemma OnceOnly(agents: seq<string>, a: string)
    requires Distinct(agents)
    ensures multiset(agents)[a] <= 1
  {
    if a in agents {
      var i :| 0 <= i < |agents| && agents[i] == a;
      WithoutMultiset(agents, i);
      assert a !in Without(agents, i);
    }
  }

  // ---------------------------------------------------------------- gates that have all finished

  /** Every gate has finished by `now`, and reading about it takes a time of its own. */
  ghost predicate AllFinished(e: Env, agents: seq<string>, length: string -> real, now: real) {
    forall a <- agents :: FinishedBy(e, a, now) && forall t :: t >= now ==> Took(e, a, t) == length(a)
  }

  /** How long it takes to read about all of them. */
  function ReadingAll(agents: seq<string>, length: string -> real): real {
    if agents == [] then 0.0 else length(agents[0]) + ReadingAll(agents[1..], length)
  }

  /** There is a second left for `a` after reading about all the others. */
  predicate FitsLast(agents: seq<string>, length: string -> real, a: string, now: real, deadline: real) {
    now + ReadingAll(agents, length) - length(a) <= deadline - 1.0
  }

  lemma {:induction false} ReadingParts(a: seq<string>, b: seq<string>, length: string -> real)
    ensures ReadingAll(a + b, length) == ReadingAll(a, length) + ReadingAll(b, length)
  {
    if a == [] {
      assert a + b == b;
    } else {
      assert (a + b)[1..] == a[1..] + b;
      ReadingParts(a[1..], b, length);
    }
  }

  lemma ReadingWithout(order: seq<string>, i: nat, length: string -> real)
    requires i < |order|
    ensures ReadingAll(order, length) == length(order[i]) + ReadingAll(Without(order, i), length)
  {
    var before, after := order[..i], order[i..];
    assert order == before + after && after[1..] == order[i + 1..];
    ReadingParts(before, after, length);
    ReadingParts(before, after[1..], length);
  }

  lemma {:induction false} ReadingOrder(agents: seq<string>, order: seq<string>, length: string -> real)
    requires Reorders(agents, order)
    ensures ReadingAll(order, length) == ReadingAll(agents, length)
    decreases |agents|
  {
    assert |multiset(order)| == |multiset(agents)|;
    if agents != [] {
      ReorderIn(agents, order, agents[0]);
      var i :| 0 <= i < |order| && order[i] == agents[0];
      WithoutMultiset(order, i);
      WithoutMultiset(agents, 0);
      assert Without(agents, 0) == agents[1..];
      assert multiset(Without(order, i)) == multiset(order) - multiset{agents[0]} == multiset(agents[1..]);
      hide Without, ReadingAll;
      ReadingWithout(order, i, length);
      ReadingWithout(agents, 0, length);
      ReadingOrder(agents[1..], Without(order, i), length);
    }
  }

  /** A line of finished gates is answered exactly when its last gate has a second left. */
  lemma {:induction false} FinishedLine(e: Env, order: seq<string>, length: string -> real, now: real, deadline: real)
    requires order != [] && AllFinished(e, order, length, now)
    ensures Served(e, order, now, deadline) <==> FitsLast(order, length, order[|order| - 1], now, deadline)
    decreases |order|
  {
    FinishedFirst(e, order, length, now, deadline);
    LengthsNonNegative(e, order, length, now);
    var rest, after := order[1..], now + length(order[0]);
    if rest != [] {
      StillFinished(e, order, length, now);
      FinishedLine(e, rest, length, after, deadline);
    }
    FitsStep(order, length, now, deadline);
  }

  lemma FitsStep(order: seq<string>, length: string -> real, now: real, deadline: real)
    requires order != [] && forall a <- order :: length(a) >= 0.0
    ensures FitsLast(order, length, order[|order| - 1], now, deadline) <==>
              && now <= deadline - 1.0
              && (|order| > 1 ==> FitsLast(order[1..], length, order[|order| - 1], now + length(order[0]), deadline))
  {
    if |order| > 1 { ReadingLast(order[1..], length); }
  }

  /** A finished gate is answered exactly when there is a second left, and takes the time of its read. */
  lemma FinishedFirst(e: Env, order: seq<string>, length: string -> real, now: real, deadline: real)
    requires order != [] && AllFinished(e, order, length, now)
    ensures AnswersFirst(e, order[0], now, deadline) <==> now <= deadline - 1.0
    ensures now <= deadline - 1.0 ==> PollFrom(e, order[0], now, GivesUp(now, deadline)).1 == now + length(order[0])
  {
    assert order[0] in order && e.answer(order[0], now).Finished?;
  }

  lemma LengthsNonNegative(e: Env, order: seq<string>, length: string -> real, now: real)
    requires AllFinished(e, order, length, now)
    ensures forall a <- order :: length(a) >= 0.0
  {
    forall a <- order ensures length(a) >= 0.0 { assert Took(e, a, now) == length(a); }
  }

  lemma StillFinished(e: Env, order: seq<string>, length: string -> real, now: real)
    requires order != [] && AllFinished(e, order, length, now)
    ensures AllFinished(e, order[1..], length, now + length(order[0]))
  {
    LengthsNonNegative(e, order, length, now);
    assert forall a <- order[1..] :: a in order;
    assert length(order[0]) >= 0.0;
  }

  lemma {:induction false} ReadingLast(order: seq<string>, length: string -> real)
    requires order != [] && forall a <- order :: length(a) >= 0.0
    ensures ReadingAll(order, length) >= length(order[|order| - 1])
  {
    assert length(order[0]) >= 0.0;
    if |order| > 1 { ReadingLast(order[1..], length); }
  }

  /** An order of finished gates is answered exactly when there is a second left for whoever comes last in it. */
  lemma FinishedOrder(e: Env, agents: seq<string>, length: string -> real, order: seq<string>, now: real, deadline: real)
    requires Distinct(agents) && agents != [] && AllFinished(e, agents, length, now) && Reorders(agents, order)
    ensures order != []
    ensures AllAnswered(Statuses(e, order, now, deadline)) <==> FitsLast(agents, length, order[|order| - 1], now, deadline)
  {
    ReordersDistinct(agents, order);
    forall b ensures b in order <==> b in agents { ReorderIn(agents, order, b); }
    ReadingOrder(agents, order, length);
    ServedExactly(e, order, now, deadline);
    FinishedLine(e, order, length, now, deadline);
  }

  lemma BringLast(agents: seq<string>, a: string) returns (order: seq<string>)
    requires a in agents
    ensures Reorders(agents, order) && order != [] && order[|order| - 1] == a
  {
    var i :| 0 <= i < |agents| && agents[i] == a;
    order := Without(agents, i) + [a];
    WithoutMultiset(agents, i);
  }

  /** Finished gates are answered in every order exactly when the reads fit whoever comes last, and in some order
      exactly when they fit for somebody. */
  lemma FinishedExactly(e: Env, agents: seq<string>, length: string -> real, now: real, deadline: real)
    requires Distinct(agents) && agents != [] && AllFinished(e, agents, length, now)
    ensures AlwaysAnswered(e, agents, now, deadline) <==> forall a <- agents :: FitsLast(agents, length, a, now, deadline)
    ensures SomehowAnswered(e, agents, now, deadline) <==> exists a <- agents :: FitsLast(agents, length, a, now, deadline)
  {
    hide AllFinished, FitsLast, Statuses, AllAnswered, Distinct;
    forall order | Reorders(agents, order)
      ensures order != [] && order[|order| - 1] in agents
      ensures AllAnswered(Statuses(e, order, now, deadline)) <==> FitsLast(agents, length, order[|order| - 1], now, deadline)
    {
      FinishedOrder(e, agents, length, order, now, deadline);
      ReorderIn(agents, order, order[|order| - 1]);
    }
    forall a <- agents
      ensures exists order :: && Reorders(agents, order) && order != [] && order[|order| - 1] == a
                              && (AllAnswered(Statuses(e, order, now, deadline)) <==> FitsLast(agents, length, a, now, deadline))
    {
      var order := BringLast(agents, a);
    }
  }

  /** So what is learnt of finished gates does not depend on the order exactly when there is not a second left for
      anybody, or the reads fit whoever comes last. */
  lemma FinishedOrderFree(e: Env, agents: seq<string>, status: string -> string, length: string -> real, now: real, deadline: real)
    requires Steady(e, agents, status) && Distinct(agents) && agents != [] && AllFinished(e, agents, length, now)
    ensures OrderFree(e, agents, now, deadline) <==>
              now > deadline - 1.0 || forall a <- agents :: FitsLast(agents, length, a, now, deadline)
  {
    OrderFreeExactly(e, agents, status, now, deadline);
    FinishedExactly(e, agents, length, now, deadline);
    forall a <- agents ensures AnswersFirst(e, a, now, deadline) <==> now <= deadline - 1.0 {
      FinishedFirst(e, [a], length, now, deadline);
    }
    assert agents[0] in agents;
    hide OrderFree, AlwaysAnswered, AnswersFirst, FitsLast, Steady, AllFinished;
  }

  // ---------------------------------------------------------------- reads that take no time

  /** Every gate runs until its time and has finished from then on, or never does; reads take no time. */
  ghost predicate Schedule(e: Env, agents: seq<string>, status: string -> string, finish: string -> Option<real>) {
    && (forall a, t :: a in agents ==> Took(e, a, t) == 0.0)
    && (forall a, t :: a in agents ==>
          e.answer(a, t) == if finish(a).Some? && finish(a).value <= t then Finished(status(a)) else Running)
  }

  /** The time of the last poll before `until`, polling every five seconds from `now`. */
  function LastSlot(now: real, until: real): real
    decreases if now < until then until - now + NAP else 0.0
  {
    if now + NAP < until then LastSlot(now + NAP, until) else now
  }

  /** The gate has finished by the last poll there is time for. */
  predicate InTime(finish: Option<real>, now: real, deadline: real) {
    now < GivesUp(now, deadline) && finish.Some? && finish.value <= LastSlot(now, GivesUp(now, deadline))
  }

  lemma SameGrid(now: real, deadline: real)
    requires now + NAP < GivesUp(now, deadline)
    ensures GivesUp(now + NAP, deadline) == GivesUp(now, deadline)
  {
    assert (deadline - now).Floor == (deadline - (now + NAP)).Floor + 5;
  }

  lemma {:induction false} LastSlotIn(now: real, until: real)
    requires now < until
    ensures now <= LastSlot(now, until) < until
    decreases if now < until then until - now + NAP else 0.0
  {
    if now + NAP < until { LastSlotIn(now + NAP, until); }
  }

  /** A gate is answered exactly when it has finished in time, and the next poll starts on the same grid. */
  lemma {:induction false} AnsweredInTime(e: Env, agents: seq<string>, status: string -> string, finish: string -> Option<real>,
                                          a: string, now: real, deadline: real)
    requires Schedule(e, agents, status, finish) && a in agents
    ensures AnswersFirst(e, a, now, deadline) <==> InTime(finish(a), now, deadline)
    ensures AnswersFirst(e, a, now, deadline) ==>
              var after := PollFrom(e, a, now, GivesUp(now, deadline)).1;
              && after < GivesUp(now, deadline) && GivesUp(after, deadline) == GivesUp(now, deadline)
              && LastSlot(after, GivesUp(now, deadline)) == LastSlot(now, GivesUp(now, deadline))
    decreases if now < deadline then deadline - now + NAP else 0.0
  {
    var until := GivesUp(now, deadline);
    if now < until {
      LastSlotIn(now, until);
      if e.answer(a, now) == Running {
        if now + NAP < until {
          SameGrid(now, deadline);
          AnsweredInTime(e, agents, status, finish, a, now + NAP, deadline);
        } else {
          assert PollFrom(e, a, now + NAP, until).0 == TimedOut;
        }
      }
    }
  }

  lemma {:induction false} LineInTime(e: Env, agents: seq<string>, status: string -> string, finish: string -> Option<real>,
                                      order: seq<string>, now: real, deadline: real)
    requires Schedule(e, agents, status, finish)
    requires forall a <- order :: a in agents && InTime(finish(a), now, deadline)
    ensures AllAnswered(Statuses(e, order, now, deadline))
    decreases |order|
  {
    if order != [] {
      AnsweredInTime(e, agents, status, finish, order[0], now, deadline);
      var after := PollFrom(e, order[0], now, GivesUp(now, deadline)).1;
      forall a <- order[1..] ensures a in agents && InTime(finish(a), after, deadline) { assert a in order; }
      LineInTime(e, agents, status, finish, order[1..], after, deadline);
    }
  }

  /** With reads that take no time the exact condition speaks of nothing but when each gate finishes: every gate
      by the last poll there is time for, or none. */
  lemma OrderFreeOnSchedule(e: Env, agents: seq<string>, status: string -> string, finish: string -> Option<real>,
                            now: real, deadline: real)
    requires Schedule(e, agents, status, finish)
    ensures OrderFree(e, agents, now, deadline) <==>
              (forall a <- agents :: InTime(finish(a), now, deadline)) || (forall a <- agents :: !InTime(finish(a), now, deadline))
  {
    assert Steady(e, agents, status);
    OrderFreeExactly(e, agents, status, now, deadline);
    forall a <- agents ensures AnswersFirst(e, a, now, deadline) <==> InTime(finish(a), now, deadline) {
      AnsweredInTime(e, agents, status, finish, a, now, deadline);
    }
    if forall a <- agents :: InTime(finish(a), now, deadline) {
      InTimeAlways(e, agents, status, finish, now, deadline);
    }
    if AlwaysAnswered(e, agents, now, deadline) {
      forall a <- agents ensures AnswersFirst(e, a, now, deadline) {
        var order := BringFirst(agents, a);
        assert Statuses(e, order, now, deadline)[a].Some?;
      }
    }
  }

  lemma InTimeAlways(e: Env, agents: seq<string>, status: string -> string, finish: string -> Option<real>, now: real, deadline: real)
    requires Schedule(e, agents, status, finish) && forall a <- agents :: InTime(finish(a), now, deadline)
    ensures AlwaysAnswered(e, agents, now, deadline)
  {
    forall order | Reorders(agents, order) ensures AllAnswered(Statuses(e, order, now, deadline)) {
      forall a ensures a in order <==> a in agents { ReorderIn(agents, order, a); }
      LineInTime(e, agents, status, finish, order, now, deadline);
    }
  }

  /** A gate that is not in time is answered in no order at all. */
  lemma {:induction false} LateInEveryOrder(e: Env, agents: seq<string>, status: string -> string, finish: string -> Option<real>,
                                            order: seq<string>, a: string, now: real, deadline: real)
    requires Schedule(e, agents, status, finish) && a in order && !InTime(finish(a), now, deadline)
    requires forall b <- order :: b in agents
    ensures Statuses(e, order, now, deadline)[a] == None
    decreases |order|
  {
    assert Steady(e, agents, status);
    var first := order[0];
    AnsweredInTime(e, agents, status, finish, first, now, deadline);
    SteadyPoll(e, agents, status, first, now, GivesUp(now, deadline));
    if AnswersFirst(e, first, now, deadline) {
      assert order == [first] + order[1..];
      LateInEveryOrder(e, agents, status, finish, order[1..], a, PollFrom(e, first, now, GivesUp(now, deadline)).1, deadline);
    } else {
      FirstStarvesAll(e, order, now, deadline);
    }
  }
}
