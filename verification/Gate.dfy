/** `tracely simulate`: which agents are gated, how each gate's verdict is obtained, and the exit code
    the merge is decided on. */
module Gate {
  import opened Prelude
  import opened Polling
  import opened Agents

  // ---------------------------------------------------------------- verdicts

  /** `unreachable` marks a gate that never answered, as opposed to one that answered no. */
  datatype GateResult = GateResult(agent: string, status: string, unreachable: bool)

  const RANK: seq<string> := ["PASS", "NO_COVERAGE", "FAIL", "ERROR"]

  /** Position in the ranking; anything unknown ranks above everything known. */
  function Rank(status: string): (r: nat)
    ensures r == 0 <==> status == "PASS"
  {
    if status == RANK[0] then 0
    else if status == RANK[1] then 1
    else if status == RANK[2] then 2
    else if status == RANK[3] then 3
    else 4
  }

  /** `worst_status`: the first status of the highest rank, PASS when there is none. */
  function WorstStatus(results: seq<GateResult>): (worst: string)
    ensures results == [] ==> worst == "PASS"
    ensures results != [] ==>
              exists i :: && 0 <= i < |results| && results[i].status == worst
                          && forall j :: 0 <= j < i ==> Rank(results[j].status) < Rank(worst)
    ensures forall r <- results :: Rank(r.status) <= Rank(worst)
  {
    if results == [] then "PASS"
    else
      var before, last := results[..|results| - 1], results[|results| - 1];
      assert results == before + [last];
      var w := WorstStatus(before);
      var worst := if before == [] || Rank(last.status) > Rank(w) then last.status else w;
      assert worst == last.status ==> results[|results| - 1].status == worst;
      worst
  }

  predicate Has(results: seq<GateResult>, status: string) { exists r <- results :: r.status == status }

  predicate Known(status: string) { status in {"PASS", "NO_COVERAGE", "FAIL", "ERROR"} }

  /** By name: a status nobody knows comes first, the earliest of them; then ERROR, FAIL, NO_COVERAGE and PASS. */
  lemma WorstByName(results: seq<GateResult>)
    ensures var worst := WorstStatus(results);
            if exists r <- results :: !Known(r.status) then
              exists i :: && 0 <= i < |results| && results[i].status == worst && !Known(worst)
                          && forall j :: 0 <= j < i ==> Known(results[j].status)
            else
              worst == if Has(results, "ERROR") then "ERROR" else if Has(results, "FAIL") then "FAIL"
                       else if Has(results, "NO_COVERAGE") then "NO_COVERAGE" else "PASS"
  {
    var worst := WorstStatus(results);
    if results != [] {
      var i :| 0 <= i < |results| && results[i].status == worst && forall j :: 0 <= j < i ==> Rank(results[j].status) < Rank(worst);
      assert results[i] in results;
      RankByName(worst);
      forall r <- results ensures Known(r.status) || Rank(r.status) == 4 { RankByName(r.status); }
      forall j | 0 <= j < i && !Known(worst) ensures Known(results[j].status) { RankByName(results[j].status); }
      hide Rank, WorstStatus, Known;
      RankOrder(results, worst);
    }
  }

  lemma RankByName(s: string)
    ensures if !Known(s) then Rank(s) == 4 else Rank(s) <= 3
    ensures Rank(s) == 3 <==> s == "ERROR"
    ensures Rank(s) == 2 <==> s == "FAIL"
    ensures Rank(s) == 1 <==> s == "NO_COVERAGE"
    ensures Rank(s) == 0 <==> s == "PASS"
  {
  }

  lemma RankOrder(results: seq<GateResult>, worst: string)
    requires Has(results, worst) && forall r <- results :: Rank(r.status) <= Rank(worst)
    ensures (forall r <- results :: Known(r.status)) ==>
              worst == if Has(results, "ERROR") then "ERROR" else if Has(results, "FAIL") then "FAIL"
                       else if Has(results, "NO_COVERAGE") then "NO_COVERAGE" else "PASS"
    ensures (exists r <- results :: !Known(r.status)) ==> !Known(worst)
  {
    forall s: string { RankByName(s); }
    hide Rank;
  }

  predicate Infra(r: GateResult) {
    r.unreachable || r.status == "ERROR"
  }

  function ExitCode(results: seq<GateResult>): nat {
    if WorstStatus(results) == "PASS" then 0
    else if exists r <- results :: Infra(r) then 2
    else 1
  }

  /** A verdict is well formed when no unanswered gate claims PASS. */
  ghost predicate WellFormed(results: seq<GateResult>) {
    forall r <- results :: r.unreachable ==> r.status == "ERROR"
  }

  /** Green means every agent passed; 2 means some agent never got an answer; else somebody said no. */
  lemma ExitCodeMeaning(results: seq<GateResult>)
    requires WellFormed(results)
    ensures ExitCode(results) == 0 <==> forall r <- results :: r.status == "PASS"
    ensures ExitCode(results) == 2 <==> exists r <- results :: Infra(r)
    ensures ExitCode(results) in {0, 1, 2}
  {
    var w := WorstStatus(results);
    if w == "PASS" {
      forall r <- results ensures r.status == "PASS" {
        assert Rank(r.status) <= Rank(w);
      }
    } else {
      var r :| r in results && r.status == w;
    }
  }

  /** The code does not depend on the order in which the agents were gated. */
  lemma ExitCodeUnordered(a: seq<GateResult>, b: seq<GateResult>)
    requires WellFormed(a) && multiset(a) == multiset(b)
    ensures ExitCode(a) == ExitCode(b)
  {
    forall r ensures r in a <==> r in b {
      assert r in multiset(a) <==> r in multiset(b);
    }
    ExitCodeMeaning(a);
    ExitCodeMeaning(b);
  }

  // ---------------------------------------------------------------- the command

  datatype Start = Started | HttpError | UrlError | StartCrash

  datatype Discovery = Scenarios(list: seq<Scenario>) | CannotList | ListCrash

  datatype Outcome = Exit(code: nat, results: seq<GateResult>) | Uncaught

  /** What was learnt of each started gate. */
  type Learnt = map<string, Option<string>>

  /** The one result an agent gets, from how its start and its polling went. */
  function ResultFor(agent: string, start: string -> Start, learnt: Learnt): GateResult {
    if start(agent) == Started && agent in learnt && learnt[agent].Some?
    then GateResult(agent, learnt[agent].value, false)
    else GateResult(agent, "ERROR", true)
  }

  function ResultsFor(agents: seq<string>, start: string -> Start, learnt: Learnt): (r: seq<GateResult>)
    ensures |r| == |agents|
    ensures forall i :: 0 <= i < |r| ==> r[i] == ResultFor(agents[i], start, learnt)
  {
    seq(|agents|, i requires 0 <= i < |agents| => ResultFor(agents[i], start, learnt))
  }

  function StartedOf(agents: seq<string>, start: string -> Start): seq<string> {
    if agents == [] then []
    else
      var before, last := StartedOf(agents[..|agents| - 1], start), agents[|agents| - 1];
      if start(last) == Started then before + [last] else before
  }

  function FailedOf(agents: seq<string>, start: string -> Start): seq<string> {
    if agents == [] then []
    else
      var before, last := FailedOf(agents[..|agents| - 1], start), agents[|agents| - 1];
      if start(last) != Started then before + [last] else before
  }

  lemma {:induction false} StartsHold(agents: seq<string>, start: string -> Start, a: string)
    ensures a in StartedOf(agents, start) <==> a in agents && start(a) == Started
    ensures a in FailedOf(agents, start) <==> a in agents && start(a) != Started
  {
    if agents != [] {
      StartsHold(agents[..|agents| - 1], start, a);
      assert agents == agents[..|agents| - 1] + [agents[|agents| - 1]];
    }
  }

  lemma {:induction false} Partition(agents: seq<string>, start: string -> Start)
    ensures multiset(FailedOf(agents, start) + StartedOf(agents, start)) == multiset(agents)
  {
    if agents != [] {
      Partition(agents[..|agents| - 1], start);
      assert agents == agents[..|agents| - 1] + [agents[|agents| - 1]];
    }
  }

  /** First loop: start every gate before waiting on any of them. */
  method StartAll(agents: seq<string>, start: string -> Start)
    returns (crashed: bool, started: seq<string>, results: seq<GateResult>)
    ensures crashed <==> exists a <- agents :: start(a) == StartCrash
    ensures !crashed ==> started == StartedOf(agents, start)
    ensures !crashed ==> |results| == |FailedOf(agents, start)|
    ensures !crashed ==> forall i :: 0 <= i < |results| ==> results[i] == GateResult(FailedOf(agents, start)[i], "ERROR", true)
  {
    crashed, started, results := false, [], [];
    for i := 0 to |agents|
      invariant forall a <- agents[..i] :: start(a) != StartCrash
      invariant started == StartedOf(agents[..i], start)
      invariant |results| == |FailedOf(agents[..i], start)|
      invariant forall m :: 0 <= m < |results| ==> results[m] == GateResult(FailedOf(agents[..i], start)[m], "ERROR", true)
    {
      assert agents[..i + 1][..i] == agents[..i];
      match start(agents[i])
      case StartCrash => return true, [], [];
      case Started => started := started + [agents[i]];
      case _ => results := results + [GateResult(agents[i], "ERROR", true)];
    }
    assert agents[..|agents|] == agents;
  }

  /** The result of a gate that was started, from what its poll came to. */
  function Polled(agent: string, p: Poll): GateResult {
    if p.Verdict? then GateResult(agent, p.status, false) else GateResult(agent, "ERROR", true)
  }

  function PolledAll(started: seq<string>, ps: seq<Poll>): (r: seq<GateResult>)
    requires |ps| == |started|
    ensures |r| == |ps|
    ensures forall i :: 0 <= i < |ps| ==> r[i] == Polled(started[i], ps[i])
  {
    seq(|ps|, i requires 0 <= i < |ps| => Polled(started[i], ps[i]))
  }

  lemma PolledUpTo(started: seq<string>, ps: seq<Poll>, i: nat)
    requires |ps| == |started| && i < |ps|
    ensures PolledAll(started[..i + 1], ps[..i + 1]) == PolledAll(started[..i], ps[..i]) + [Polled(started[i], ps[i])]
    ensures Crash !in ps[..i] && ps[i] != Crash ==> Crash !in ps[..i + 1]
  {
  }

  lemma PollsSplit(e: Env, order: seq<string>, ps: seq<Poll>, i: nat, t: real, deadline: real)
    requires |ps| == |order| && i < |order| && ps[i..] == Polls(e, order[i..], t, deadline)
    ensures var (p, after) := PollFrom(e, order[i], t, GivesUp(t, deadline));
            ps[i] == p && ps[i + 1..] == Polls(e, order[i + 1..], after, deadline)
  {
    assert order[i..][1..] == order[i + 1..] && ps[i..][1..] == ps[i + 1..];
  }

  /** Second loop: wait for each started gate with what is left of the one budget. */
  method PollAll(started: seq<string>, failed: seq<GateResult>, e: Env, now: real, deadline: real)
    returns (crashed: bool, results: seq<GateResult>)
    ensures crashed <==> Crash in Polls(e, started, now, deadline)
    ensures !crashed ==> results == failed + PolledAll(started, Polls(e, started, now, deadline))
  {
    crashed, results := false, failed;
    var t := now;
    ghost var ps := Polls(e, started, now, deadline);
    for i := 0 to |started|
      invariant ps[i..] == Polls(e, started[i..], t, deadline)
      invariant Crash !in ps[..i]
      invariant results == failed + PolledAll(started[..i], ps[..i])
    {
      var a := started[i];
      PollsSplit(e, started, ps, i, t, deadline);
      PolledUpTo(started, ps, i);
      hide Polls, PollFrom, PolledAll, Polled;
      var p, after := PollGate(e, a, t, Remaining(t, deadline));
      assert ps[i] == p;
      if p == Crash {
        return true, [];
      }
      results := results + [Polled(a, p)];
      t := after;
    }
    assert ps[..|started|] == ps && started[..|started|] == started;
  }

  lemma ResultsAgree(started: seq<string>, start: string -> Start, e: Env, now: real, deadline: real, i: nat)
    requires Distinct(started) && i < |started| && start(started[i]) == Started
    ensures Polled(started[i], Polls(e, started, now, deadline)[i]) == ResultFor(started[i], start, Statuses(e, started, now, deadline))
  {
    StatusAt(e, started, now, deadline, i);
    assert started[i] in started;
  }

  /** Whether some request fails in a way the command does not catch. */
  ghost predicate Crashes(agents: seq<string>, start: string -> Start, e: Env, now: real, deadline: real) {
    (exists a <- agents :: start(a) == StartCrash) || Crash in Polls(e, StartedOf(agents, start), now, deadline)
  }

  /** What gating these agents in this order comes to. */
  function LearntOf(agents: seq<string>, start: string -> Start, e: Env, now: real, deadline: real): Learnt {
    Statuses(e, StartedOf(agents, start), now, deadline)
  }

  /** What gating the agents in this order ends with: an exit code, or an uncaught error. */
  ghost function CodeOf(agents: seq<string>, start: string -> Start, e: Env, now: real, deadline: real): Option<nat> {
    if Crashes(agents, start, e, now, deadline) then None
    else Some(ExitCode(ResultsFor(agents, start, LearntOf(agents, start, e, now, deadline))))
  }

  /** Gate every agent of a non-empty list. */
  method GateAgents(agents: seq<string>, start: string -> Start, e: Env, now: real, deadline: real) returns (o: Outcome)
    requires Distinct(agents)
    ensures if Crashes(agents, start, e, now, deadline) then o == Uncaught
            else && o.Exit? && multiset(o.results) == multiset(ResultsFor(agents, start, LearntOf(agents, start, e, now, deadline)))
                 && o.code == ExitCode(o.results)
    ensures CodeOf(agents, start, e, now, deadline) == if o.Exit? then Some(o.code) else None
    ensures o.Exit? && o.code == 0 ==> forall a <- agents :: start(a) == Started && Said(e, a, now, deadline, "PASS")
    ensures (exists a <- agents :: start(a) == StartCrash) ==> o == Uncaught
    ensures o == Uncaught ==> exists a <- agents :: start(a) == StartCrash || Breaks(e, a, now, deadline)
  {
    hide ExitCode, StartedOf, FailedOf, Polls, Statuses, ResultsFor, Polled;
    var crashed, started, results := StartAll(agents, start);
    if crashed {
      return Uncaught;
    }
    crashed, results := PollAll(started, results, e, now, deadline);
    if crashed {
      CrashesBreak(e, started, now, deadline);
      forall a <- started ensures a in agents { StartsHold(agents, start, a); }
      return Uncaught;
    }
    GatedResults(agents, start, e, now, deadline, results);
    CodeOfResults(agents, start, e, now, deadline, results);
    if ExitCode(results) == 0 { GreenMeansSaid(agents, results, start, e, now, deadline); }
    o := Exit(ExitCode(results), results);
  }

  /** Green means that the server said PASS about every agent, asked within the budget. */
  lemma GreenMeansSaid(agents: seq<string>, results: seq<GateResult>, start: string -> Start, e: Env, now: real, deadline: real)
    requires multiset(results) == multiset(ResultsFor(agents, start, LearntOf(agents, start, e, now, deadline))) && ExitCode(results) == 0
    ensures forall a <- agents :: start(a) == Started && Said(e, a, now, deadline, "PASS")
  {
    var learnt := LearntOf(agents, start, e, now, deadline);
    NeverFalselyGreen(agents, results, start, learnt);
    forall a <- agents ensures start(a) == Started && Said(e, a, now, deadline, "PASS") {
      StartsHold(agents, start, a);
      StatusSaid(e, StartedOf(agents, start), now, deadline, a);
    }
  }

  lemma CodeOfResults(agents: seq<string>, start: string -> Start, e: Env, now: real, deadline: real, results: seq<GateResult>)
    requires multiset(results) == multiset(ResultsFor(agents, start, LearntOf(agents, start, e, now, deadline)))
    ensures ExitCode(results) == ExitCode(ResultsFor(agents, start, LearntOf(agents, start, e, now, deadline)))
  {
    var byAgent := ResultsFor(agents, start, LearntOf(agents, start, e, now, deadline));
    assert WellFormed(byAgent);
    hide ExitCode, ResultsFor;
    ExitCodeUnordered(byAgent, results);
  }

  lemma FailedResult(agents: seq<string>, start: string -> Start, learnt: Learnt, a: string)
    requires a in FailedOf(agents, start)
    ensures ResultFor(a, start, learnt) == GateResult(a, "ERROR", true)
  {
    StartsHold(agents, start, a);
  }

  lemma StartedResult(agents: seq<string>, start: string -> Start, e: Env, now: real, deadline: real, i: nat)
    requires Distinct(agents) && i < |StartedOf(agents, start)|
    ensures Polled(StartedOf(agents, start)[i], Polls(e, StartedOf(agents, start), now, deadline)[i]) ==
            ResultFor(StartedOf(agents, start)[i], start, LearntOf(agents, start, e, now, deadline))
  {
    StartsHold(agents, start, StartedOf(agents, start)[i]);
    StartedDistinct(agents, start);
    hide StartedOf, Polls, Polled, ResultFor, Statuses;
    ResultsAgree(StartedOf(agents, start), start, e, now, deadline, i);
  }

  /** Failed starts first, then the started gates in order: one result per agent. */
  lemma GatedResults(agents: seq<string>, start: string -> Start, e: Env, now: real, deadline: real, results: seq<GateResult>)
    requires Distinct(agents) && |results| == |FailedOf(agents, start)| + |StartedOf(agents, start)|
    requires forall i :: 0 <= i < |FailedOf(agents, start)| ==> results[i] == GateResult(FailedOf(agents, start)[i], "ERROR", true)
    requires forall i :: 0 <= i < |StartedOf(agents, start)| ==>
               results[|FailedOf(agents, start)| + i] ==
                 Polled(StartedOf(agents, start)[i], Polls(e, StartedOf(agents, start), now, deadline)[i])
    ensures multiset(results) == multiset(ResultsFor(agents, start, LearntOf(agents, start, e, now, deadline)))
  {
    var failed, started, learnt := FailedOf(agents, start), StartedOf(agents, start), LearntOf(agents, start, e, now, deadline);
    hide StartedOf, FailedOf, Polls, Statuses, Polled, LearntOf, ResultFor;
    Partition(agents, start);
    forall i | 0 <= i < |failed| ensures results[i] == ResultFor(failed[i], start, learnt) {
      FailedResult(agents, start, learnt, failed[i]);
    }
    forall i | 0 <= i < |started| ensures results[|failed| + i] == ResultFor(started[i], start, learnt) {
      StartedResult(agents, start, e, now, deadline, i);
    }
    assert results == ResultsFor(failed + started, start, learnt);
    ResultsRegroup(failed + started, agents, start, learnt);
  }

  /** The agents the command is to gate. */
  ghost predicate AskedFor(positional: seq<string>, agent: Option<string>, env: string, all: bool, discovery: Discovery, name: string) {
    if all then discovery.Scenarios? && Enabled(discovery.list, name) else Wanted(positional, agent, env, name)
  }

  /** `cmd_simulate`, from the names on the command line to the exit code. `start` and `e` say what the API
      answers, and when; `deadline` is set once the gates are started. Once past start-up, and unless some
      request fails in a way the command does not catch, it yields one result per agent. */
  method Simulate(positional: seq<string>, agent: Option<string>, env: string, all: bool, discovery: Discovery,
                  start: string -> Start, e: Env, now: real, deadline: real) returns (o: Outcome, ghost agents: seq<string>)
    ensures agents ==
              if all then (if discovery.Scenarios? then Dedup(EnabledAgents(discovery.list)) else [])
              else Dedup(AllNames(Given(positional, agent, env)))
    ensures if all && discovery.ListCrash? then o == Uncaught
            else if agents == [] then o == Exit(2, [])
            else if Crashes(agents, start, e, now, deadline) then o == Uncaught
            else && o.Exit? && multiset(o.results) == multiset(ResultsFor(agents, start, LearntOf(agents, start, e, now, deadline)))
                 && o.code == ExitCode(o.results)
    ensures all && discovery == CannotList ==> o == Exit(2, [])
    ensures !(all && discovery == ListCrash) ==> forall a :: a in agents <==> AskedFor(positional, agent, env, all, discovery, a)
    ensures o.Exit? && o.code == 0 ==>
              && agents != []
              && forall a :: AskedFor(positional, agent, env, all, discovery, a) ==> start(a) == Started && Said(e, a, now, deadline, "PASS")
  {
    var names := AgentList(positional, agent, env);
    agents := names;
    DedupDistinct(AllNames(Given(positional, agent, env)));
    if discovery.Scenarios? { DedupDistinct(EnabledAgents(discovery.list)); }
    hide Dedup, EnabledAgents, AllNames, Given, ExitCode, ResultsFor, Crashes, LearntOf, Enabled, Wanted;
    if all {
      match discovery
      case CannotList => agents := []; return Exit(2, []), [];
      case ListCrash => return Uncaught, [];
      case Scenarios(list) => names := DiscoverAgents(list);
    }
    agents := names;
    if names == [] {
      return Exit(2, []), names;
    }
    o := GateAgents(names, start, e, now, deadline);
  }

  lemma {:induction false} StartedDistinct(agents: seq<string>, start: string -> Start)
    requires Distinct(agents)
    ensures Distinct(StartedOf(agents, start))
  {
    if agents != [] {
      var before, last := agents[..|agents| - 1], agents[|agents| - 1];
      assert Distinct(before);
      StartedDistinct(before, start);
      var s := StartedOf(before, start);
      forall i | 0 <= i < |s| ensures s[i] != last {
        StartsHold(before, start, s[i]);
        var j :| 0 <= j < |before| && before[j] == s[i];
        assert agents[j] != agents[|agents| - 1];
      }
    }
  }

  lemma ResultsWithout(agents: seq<string>, i: nat, start: string -> Start, learnt: Learnt)
    requires i < |agents|
    ensures multiset(ResultsFor(agents, start, learnt)) ==
            multiset(ResultsFor(Without(agents, i), start, learnt)) + multiset{ResultFor(agents[i], start, learnt)}
  {
    var r := ResultsFor(agents, start, learnt);
    assert ResultsFor(Without(agents, i), start, learnt) == Without(r, i);
    WithoutMultiset(r, i);
  }

  /** The same learnt of the same agents, listed in another order, are the same results. */
  lemma {:induction false} ResultsRegroup(a: seq<string>, b: seq<string>, start: string -> Start, learnt: Learnt)
    requires multiset(a) == multiset(b)
    ensures multiset(ResultsFor(a, start, learnt)) == multiset(ResultsFor(b, start, learnt))
  {
    if a == [] {
      assert |b| == |multiset(b)| == |multiset(a)| == 0;
      assert b == a;
    } else {
      assert a[0] in multiset(b);
      var i :| 0 <= i < |b| && b[i] == a[0];
      WithoutMultiset(a, 0);
      WithoutMultiset(b, i);
      hide ResultFor, ResultsFor, Without;
      ResultsWithout(a, 0, start, learnt);
      ResultsWithout(b, i, start, learnt);
      assert multiset(Without(a, 0)) == multiset(a) - multiset{a[0]} == multiset(Without(b, i));
      ResultsRegroup(Without(a, 0), Without(b, i), start, learnt);
    }
  }

  // ---------------------------------------------------------------- never falsely green

  lemma ResultMeaning(a: string, start: string -> Start, learnt: Learnt)
    ensures var r := ResultFor(a, start, learnt);
            && (r.status == "PASS" <==> start(a) == Started && Find(learnt, a) == Some(Some("PASS")))
            && (Infra(r) <==> start(a) != Started || Find(learnt, a) in {None, Some(None), Some(Some("ERROR"))})
            && (r.unreachable ==> r.status == "ERROR")
  {
  }

  lemma ResultsAre(agents: seq<string>, start: string -> Start, learnt: Learnt, r: GateResult)
    ensures r in ResultsFor(agents, start, learnt) <==> exists a <- agents :: r == ResultFor(a, start, learnt)
  {
    var byAgent := ResultsFor(agents, start, learnt);
    if a :| a in agents && r == ResultFor(a, start, learnt) {
      var i :| 0 <= i < |agents| && agents[i] == a;
      assert byAgent[i] == r;
    }
    if r in byAgent {
      var i :| 0 <= i < |byAgent| && byAgent[i] == r;
      assert agents[i] in agents;
    }
  }

  /** Never falsely green, in any run: the code is 0 only when every gated agent was started, polled to a verdict
      within the budget and got PASS, and it is 2 exactly when some agent has no verdict or an ERROR verdict. */
  lemma NeverFalselyGreen(agents: seq<string>, results: seq<GateResult>, start: string -> Start, learnt: Learnt)
    requires multiset(results) == multiset(ResultsFor(agents, start, learnt))
    ensures ExitCode(results) == 0 <==> forall a <- agents :: start(a) == Started && Find(learnt, a) == Some(Some("PASS"))
    ensures ExitCode(results) == 2 <==>
              exists a <- agents :: start(a) != Started || Find(learnt, a) in {None, Some(None), Some(Some("ERROR"))}
  {
    var byAgent := ResultsFor(agents, start, learnt);
    forall a { ResultMeaning(a, start, learnt); }
    forall r { ResultsAre(agents, start, learnt, r); }
    hide ResultFor, ResultsFor, ExitCode, Infra;
    assert WellFormed(byAgent);
    ExitCodeUnordered(byAgent, results);
    ExitCodeMeaning(byAgent);
    forall a <- agents ensures ResultFor(a, start, learnt) in byAgent {
      ResultsAre(agents, start, learnt, ResultFor(a, start, learnt));
    }
  }

  // ---------------------------------------------------------------- the order of the agents

  /** Two gates that have passed long ago; reading the answer about A takes 9.5 s. */
  function SlowA(): Env {
    Env((a: string, t: real) => Finished("PASS"), (a: string, t: real) => if a == "A" then 9.5 else 0.0)
  }

  function AllStart(): string -> Start { (a: string) => Started }

  lemma SlowFirst()
    ensures LearntOf(["A", "B"], AllStart(), SlowA(), 0.0, 10.0) == map["A" := Some("PASS"), "B" := None]
  {
    var ab := ["A", "B"];
    assert ab[..1] == ["A"] && ["A"][..0] == [] && ab[1..] == ["B"] && ["B"][1..] == [];
    assert StartedOf(["A"], AllStart()) == ["A"];
    assert StartedOf(ab, AllStart()) == ab;
    assert PollFrom(SlowA(), "A", 0.0, 10.0) == (Verdict("PASS"), 9.5);
    assert GivesUp(9.5, 10.0) == 9.5;
    assert Statuses(SlowA(), ["B"], 9.5, 10.0) == map["B" := None];
  }

  lemma SlowLast()
    ensures LearntOf(["B", "A"], AllStart(), SlowA(), 0.0, 10.0) == map["A" := Some("PASS"), "B" := Some("PASS")]
  {
    var ba := ["B", "A"];
    assert ba[..1] == ["B"] && ["B"][..0] == [] && ba[1..] == ["A"] && ["A"][1..] == [];
    assert StartedOf(["B"], AllStart()) == ["B"];
    assert StartedOf(ba, AllStart()) == ba;
    assert PollFrom(SlowA(), "B", 0.0, 10.0) == (Verdict("PASS"), 0.0);
    assert PollFrom(SlowA(), "A", 0.0, 10.0) == (Verdict("PASS"), 9.5);
    assert Statuses(SlowA(), ["A"], 0.0, 10.0) == map["A" := Some("PASS")];
  }

  /** The order matters, even for gates that have passed long ago: read first, the slow one leaves less than a
      second, the other is never asked, and the merge is blocked for want of an answer; read last, both pass. */
  lemma OrderMatters()
    ensures ExitCode(ResultsFor(["A", "B"], AllStart(), LearntOf(["A", "B"], AllStart(), SlowA(), 0.0, 10.0))) == 2
    ensures ExitCode(ResultsFor(["B", "A"], AllStart(), LearntOf(["B", "A"], AllStart(), SlowA(), 0.0, 10.0))) == 0
  {
    SlowFirst();
    SlowLast();
    hide LearntOf, SlowA, ExitCode, ResultsFor;
    var first, last := LearntOf(["A", "B"], AllStart(), SlowA(), 0.0, 10.0), LearntOf(["B", "A"], AllStart(), SlowA(), 0.0, 10.0);
    NeverFalselyGreen(["A", "B"], ResultsFor(["A", "B"], AllStart(), first), AllStart(), first);
    NeverFalselyGreen(["B", "A"], ResultsFor(["B", "A"], AllStart(), last), AllStart(), last);
    assert "B" in ["A", "B"] && Find(first, "B") == Some(None);
  }

  lemma {:induction false} StartedBag(agents: seq<string>, start: string -> Start, a: string)
    ensures multiset(StartedOf(agents, start))[a] == if start(a) == Started then multiset(agents)[a] else 0
  {
    if agents != [] {
      StartedBag(agents[..|agents| - 1], start, a);
      assert agents == agents[..|agents| - 1] + [agents[|agents| - 1]];
    }
  }

  lemma StartedReorders(agents: seq<string>, order: seq<string>, start: string -> Start)
    requires Reorders(agents, order)
    ensures Reorders(StartedOf(agents, start), StartedOf(order, start))
  {
    forall a ensures multiset(StartedOf(order, start))[a] == multiset(StartedOf(agents, start))[a] {
      StartedBag(agents, start, a);
      StartedBag(order, start, a);
    }
  }

  /** Where the order of the started gates is free, the results and the exit code are those of the agents,
      whatever their order. */
  lemma ResultsOrderFree(agents: seq<string>, order: seq<string>, start: string -> Start, e: Env, now: real, deadline: real)
    requires Reorders(agents, order) && OrderFree(e, StartedOf(agents, start), now, deadline)
    ensures var a := ResultsFor(agents, start, LearntOf(agents, start, e, now, deadline));
            var b := ResultsFor(order, start, LearntOf(order, start, e, now, deadline));
            multiset(a) == multiset(b) && ExitCode(a) == ExitCode(b)
  {
    StartedReorders(agents, order, start);
    var learnt := LearntOf(agents, start, e, now, deadline);
    assert LearntOf(order, start, e, now, deadline) == learnt;
    ResultsRegroup(agents, order, start, learnt);
    assert WellFormed(ResultsFor(agents, start, learnt));
    hide ExitCode, ResultsFor;
    ExitCodeUnordered(ResultsFor(agents, start, learnt), ResultsFor(order, start, learnt));
  }

  /** With reads that take no time the code never depends on the order, even where the results do: a gate that is
      late is answered in no order, and one such gate makes the code 2. */
  lemma CodeOrderFreeOnSchedule(agents: seq<string>, order: seq<string>, start: string -> Start, e: Env,
                                status: string -> string, finish: string -> Option<real>, now: real, deadline: real)
    requires Reorders(agents, order) && Schedule(e, agents, status, finish)
    ensures ExitCode(ResultsFor(agents, start, LearntOf(agents, start, e, now, deadline))) ==
            ExitCode(ResultsFor(order, start, LearntOf(order, start, e, now, deadline)))
  {
    var started := StartedOf(agents, start);
    forall a ensures a in started <==> a in agents && start(a) == Started { StartsHold(agents, start, a); }
    assert Schedule(e, started, status, finish);
    if forall a <- started :: InTime(finish(a), now, deadline) {
      OrderFreeOnSchedule(e, started, status, finish, now, deadline);
      ResultsOrderFree(agents, order, start, e, now, deadline);
    } else {
      var a :| a in started && !InTime(finish(a), now, deadline);
      StartedReorders(agents, order, start);
      LateMeansTwo(agents, agents, start, e, status, finish, a, now, deadline);
      LateMeansTwo(agents, order, start, e, status, finish, a, now, deadline);
    }
  }

  lemma LateMeansTwo(agents: seq<string>, order: seq<string>, start: string -> Start, e: Env,
                     status: string -> string, finish: string -> Option<real>, a: string, now: real, deadline: real)
    requires Reorders(agents, order) && Schedule(e, agents, status, finish)
    requires a in StartedOf(agents, start) && !InTime(finish(a), now, deadline)
    ensures ExitCode(ResultsFor(order, start, LearntOf(order, start, e, now, deadline))) == 2
  {
    forall b ensures b in order <==> b in agents { ReorderIn(agents, order, b); }
    forall b ensures b in StartedOf(order, start) <==> b in agents && start(b) == Started { StartsHold(order, start, b); }
    StartsHold(agents, start, a);
    var learnt := LearntOf(order, start, e, now, deadline);
    LateInEveryOrder(e, agents, status, finish, StartedOf(order, start), a, now, deadline);
    NeverFalselyGreen(order, ResultsFor(order, start, learnt), start, learnt);
    assert a in order && Find(learnt, a) == Some(None);
  }

  // ---------------------------------------------------------------- exactly when the code depends on the order

  /** Every order of the agents ends alike. */
  ghost predicate CodeOrderFree(agents: seq<string>, start: string -> Start, e: Env, now: real, deadline: real) {
    forall order :: Reorders(agents, order) ==> CodeOf(order, start, e, now, deadline) == CodeOf(agents, start, e, now, deadline)
  }

  /** No start failed, and no gate comes out as ERROR: only time can still keep the code from being 0 or 1. */
  predicate Hopeful(agents: seq<string>, start: string -> Start, status: string -> string) {
    forall a <- agents :: start(a) == Started && status(a) != "ERROR"
  }

  lemma {:induction false} SteadyNeverCrashes(e: Env, order: seq<string>, status: string -> string, now: real, deadline: real)
    requires Steady(e, order, status)
    ensures Crash !in Polls(e, order, now, deadline)
    decreases |order|
  {
    if order != [] {
      SteadyPoll(e, order, status, order[0], now, GivesUp(now, deadline));
      assert forall a <- order[1..] :: a in order;
      SteadyNeverCrashes(e, order[1..], status, PollFrom(e, order[0], now, GivesUp(now, deadline)).1, deadline);
    }
  }

  /** With steady gates only a start can crash the command, and that in every order. */
  lemma CrashesInEveryOrder(agents: seq<string>, order: seq<string>, start: string -> Start, e: Env, status: string -> string,
                            now: real, deadline: real)
    requires Reorders(agents, order) && Steady(e, agents, status)
    ensures Crashes(order, start, e, now, deadline) <==> exists a <- agents :: start(a) == StartCrash
  {
    forall a ensures a in order <==> a in agents { ReorderIn(agents, order, a); }
    forall a ensures a in StartedOf(order, start) ==> a in agents { StartsHold(order, start, a); }
    SteadyNeverCrashes(e, StartedOf(order, start), status, now, deadline);
  }

  lemma {:induction false} AllStarted(order: seq<string>, start: string -> Start)
    requires forall a <- order :: start(a) == Started
    ensures StartedOf(order, start) == order
  {
    if order != [] {
      var before, last := order[..|order| - 1], order[|order| - 1];
      assert order == before + [last];
      AllStarted(before, start);
    }
  }

  /** A start that failed, or a gate that comes out as ERROR, makes the code 2 in every order. */
  lemma HopelessMeansTwo(agents: seq<string>, order: seq<string>, start: string -> Start, e: Env, status: string -> string,
                         now: real, deadline: real)
    requires Reorders(agents, order) && Steady(e, agents, status) && !Hopeful(agents, start, status)
    ensures ExitCode(ResultsFor(order, start, LearntOf(order, start, e, now, deadline))) == 2
  {
    var a :| a in agents && (start(a) != Started || status(a) == "ERROR");
    var started, learnt := StartedOf(order, start), LearntOf(order, start, e, now, deadline);
    forall b ensures b in order <==> b in agents { ReorderIn(agents, order, b); }
    forall b ensures b in started ==> b in agents { StartsHold(order, start, b); }
    StartsHold(order, start, a);
    SteadyStatuses(e, started, status, now, deadline);
    assert start(a) == Started ==> a in started && learnt[a] in {None, Some(status(a))};
    hide ExitCode, ResultsFor, Statuses, StartedOf, Reorders, Steady;
    NeverFalselyGreen(order, ResultsFor(order, start, learnt), start, learnt);
  }

  /** Without either, the code is 2 exactly in the orders in which somebody is not answered, and the same in all
      others. */
  lemma HopefulCode(agents: seq<string>, order: seq<string>, start: string -> Start, e: Env, status: string -> string,
                    now: real, deadline: real)
    requires Reorders(agents, order) && Steady(e, agents, status) && Hopeful(agents, start, status)
    ensures ExitCode(ResultsFor(order, start, LearntOf(order, start, e, now, deadline))) ==
              if !AllAnswered(Statuses(e, order, now, deadline)) then 2
              else if forall a <- agents :: status(a) == "PASS" then 0 else 1
  {
    forall b ensures b in order <==> b in agents { ReorderIn(agents, order, b); }
    AllStarted(order, start);
    SteadyStatuses(e, order, status, now, deadline);
    hide ExitCode, ResultsFor, StartedOf, Reorders, Steady;
    SettledCode(order, start, status, Statuses(e, order, now, deadline));
  }

  lemma SettledCode(order: seq<string>, start: string -> Start, status: string -> string, learnt: Learnt)
    requires Hopeful(order, start, status) && forall a :: a in learnt <==> a in order
    requires forall a <- order :: learnt[a] in {None, Some(status(a))}
    ensures ExitCode(ResultsFor(order, start, learnt)) ==
              if !AllAnswered(learnt) then 2 else if forall a <- order :: status(a) == "PASS" then 0 else 1
  {
    var results := ResultsFor(order, start, learnt);
    assert WellFormed(results);
    ExitCodeMeaning(results);
    hide ExitCode, ResultsFor;
    NeverFalselyGreen(order, results, start, learnt);
    if !AllAnswered(learnt) {
      var a :| a in learnt && learnt[a] == None;
      assert a in order && Find(learnt, a) == Some(None);
    } else {
      forall a <- order ensures Find(learnt, a) == Some(Some(status(a))) { assert learnt[a].Some?; }
    }
  }

  /** Exactly when the exit code depends on the order of the agents, whatever the reads take: when no start failed
      and no gate comes out as ERROR, and some order answers every gate and some other does not. */
  lemma CodeOrderFreeExactly(agents: seq<string>, start: string -> Start, e: Env, status: string -> string, now: real, deadline: real)
    requires Steady(e, agents, status)
    ensures CodeOrderFree(agents, start, e, now, deadline) <==>
              !(&& Hopeful(agents, start, status)
                && SomehowAnswered(e, agents, now, deadline) && !AlwaysAnswered(e, agents, now, deadline))
  {
    hide ExitCode, ResultsFor, LearntOf, Crashes, Statuses, AllAnswered, Hopeful, Steady;
    forall order | Reorders(agents, order)
      ensures Crashes(order, start, e, now, deadline) <==> exists a <- agents :: start(a) == StartCrash
    {
      CrashesInEveryOrder(agents, order, start, e, status, now, deadline);
    }
    assert Reorders(agents, agents);
    if Hopeful(agents, start, status) {
      HopefulOrders(agents, start, e, status, now, deadline);
    } else {
      forall order | Reorders(agents, order)
        ensures ExitCode(ResultsFor(order, start, LearntOf(order, start, e, now, deadline))) == 2
      {
        HopelessMeansTwo(agents, order, start, e, status, now, deadline);
      }
    }
  }

  lemma HopefulOrders(agents: seq<string>, start: string -> Start, e: Env, status: string -> string, now: real, deadline: real)
    requires Steady(e, agents, status) && Hopeful(agents, start, status)
    ensures CodeOrderFree(agents, start, e, now, deadline) <==>
              SomehowAnswered(e, agents, now, deadline) ==> AlwaysAnswered(e, agents, now, deadline)
  {
    var good: nat := if forall a <- agents :: status(a) == "PASS" then 0 else 1;
    assert forall a <- agents :: start(a) != StartCrash;
    hide ExitCode, ResultsFor, LearntOf, Crashes, Statuses, AllAnswered, Hopeful, Steady;
    forall order | Reorders(agents, order)
      ensures CodeOf(order, start, e, now, deadline) == Some(if AllAnswered(Statuses(e, order, now, deadline)) then good else 2)
    {
      CrashesInEveryOrder(agents, order, start, e, status, now, deadline);
      HopefulCode(agents, order, start, e, status, now, deadline);
    }
    assert Reorders(agents, agents);
  }

  /** With an early enough finish and bounded reads every order of the agents ends alike. */
  lemma EnoughTimeForCode(agents: seq<string>, start: string -> Start, e: Env, status: string -> string,
                          now: real, deadline: real, f: real, r: real)
    requires Steady(e, agents, status) && ReadsWithin(e, agents, r) && r >= 0.0 && agents != []
    requires forall a <- agents :: FinishedBy(e, a, f)
    requires (if now > f + r + NAP then now else f + r + NAP) + Reads(|agents| - 1, r) <= deadline - 1.0
    ensures CodeOrderFree(agents, start, e, now, deadline)
  {
    EnoughTime(e, agents, status, now, deadline, f, r);
    CodeOrderFreeExactly(agents, start, e, status, now, deadline);
  }

  /** Gates that have all finished by the time the first is asked: the code depends on the order exactly when no
      start failed, none comes out as ERROR, and the reads leave a second for one of them as the last but not for
      another. */
  lemma FinishedCodeExactly(agents: seq<string>, start: string -> Start, e: Env, status: string -> string,
                            length: string -> real, now: real, deadline: real)
    requires Steady(e, agents, status) && Distinct(agents) && agents != [] && AllFinished(e, agents, length, now)
    ensures CodeOrderFree(agents, start, e, now, deadline) <==>
              !(&& Hopeful(agents, start, status)
                && (exists a <- agents :: FitsLast(agents, length, a, now, deadline))
                && (exists a <- agents :: !FitsLast(agents, length, a, now, deadline)))
  {
    CodeOrderFreeExactly(agents, start, e, status, now, deadline);
    FinishedExactly(e, agents, length, now, deadline);
    hide CodeOrderFree, Hopeful, SomehowAnswered, AlwaysAnswered, FitsLast;
  }
}
