/** What a hermetic replay serves, stated over one flat list of recorded entries. The queues the SDK
    keeps (ReplayQueues) are a grouped form of this list and are proved to serve the same entries. */
module Replay {
  import opened Prelude

  datatype Kind = Tools | Llm

  /** The two dictionary levels of the store, `store[kind][name]`, as one key. */
  datatype Key = Key(kind: Kind, name: Option<string>)

  datatype Entry = Entry(key: Key, args: Json, output: Json, error: Json)

  /** `Seam` is `call_tool`, `call_llm` (args `Null`) or an observed tool; `Provider` is a patched client. */
  datatype Call =
    | Seam(key: Key, args: Json)
    | Provider(model: string, input: Json)

  /** What the calling agent experiences. */
  datatype Reply = Live | Returned(output: Json) | Raised(error: Json)

  /** `recorded` fixes the order in which the order-fallback visits keys; `left` is not consumed yet. */
  datatype Tape = Tape(recorded: seq<Entry>, left: seq<Entry>)

  // ---------------------------------------------------------------- which entry is served

  /** First position holding `key`, or the length when there is none. */
  function FirstKey(es: seq<Entry>, key: Key): (i: nat)
    ensures i <= |es|
    ensures i < |es| ==> es[i].key == key
    ensures forall j :: 0 <= j < i ==> es[j].key != key
  {
    if es == [] || es[0].key == key then 0 else 1 + FirstKey(es[1..], key)
  }

  /** First position holding `key` with exactly these arguments, or the length. */
  function FirstMatch(es: seq<Entry>, key: Key, args: Json): (i: nat)
    ensures i <= |es|
    ensures i < |es| ==> es[i].key == key && es[i].args == args
    ensures forall j :: 0 <= j < i ==> !(es[j].key == key && es[j].args == args)
  {
    if es == [] || (es[0].key == key && es[0].args == args) then 0 else 1 + FirstMatch(es[1..], key, args)
  }

  /** `_pop_fixture`: the leftmost args-match when args are given and one exists, else the head. */
  function Pick(es: seq<Entry>, key: Key, args: Json): (i: nat)
    ensures i <= |es|
    ensures i < |es| ==> es[i].key == key
    ensures i == |es| <==> forall e <- es :: e.key != key
  {
    var m := FirstMatch(es, key, args);
    if args != Null && m < |es| then m else FirstKey(es, key)
  }

  /** `_pop_fixture_any`: the head of the first non-empty queue, keys in order of first recording. */
  function PickAny(recorded: seq<Entry>, es: seq<Entry>, kind: Kind): (i: nat)
    ensures i <= |es|
    ensures i < |es| ==> es[i].key.kind == kind
  {
    if recorded == [] then |es|
    else
      var i := FirstKey(es, recorded[0].key);
      if recorded[0].key.kind == kind && i < |es| then i else PickAny(recorded[1..], es, kind)
  }

  function PickFor(t: Tape, c: Call): (i: nat)
    ensures i <= |t.left|
  {
    match c
    case Seam(key, args) => Pick(t.left, key, args)
    case Provider(model, input) =>
      var i := Pick(t.left, Key(Llm, Some(model)), input);
      if i < |t.left| then i else PickAny(t.recorded, t.left, Llm)
  }

  // ---------------------------------------------------------------- runs

  function Step(t: Tape, c: Call): (Tape, Option<Entry>) {
    var i := PickFor(t, c);
    if i < |t.left| then (t.(left := Without(t.left, i)), Some(t.left[i])) else (t, None)
  }

  function Run(t: Tape, calls: seq<Call>): (r: (Tape, seq<Option<Entry>>))
    ensures |r.1| == |calls|
    ensures r.0.recorded == t.recorded
    decreases |calls|
  {
    if calls == [] then (t, [])
    else
      var (t', e) := Step(t, calls[0]);
      var (t'', es) := Run(t', calls[1..]);
      (t'', [e] + es)
  }

  /** A recorded error is raised, even beside an output; otherwise the output is returned. */
  function Deliver(e: Option<Entry>): Reply {
    match e
    case None => Live
    case Some(e) => if e.error.Truthy() then Raised(e.error) else Returned(e.output)
  }

  // ---------------------------------------------------------------- views of a run

  /** The queue of one key: its entries, in recorded order. */
  function Queue(es: seq<Entry>, k: Key): (q: seq<Entry>)
    ensures forall e <- q :: e in es && e.key == k
    ensures |q| <= |es|
  {
    if es == [] then [] else (if es[0].key == k then [es[0]] else []) + Queue(es[1..], k)
  }

  function Served(es: seq<Option<Entry>>): seq<Entry> {
    if es == [] then [] else (if es[0].Some? then [es[0].value] else []) + Served(es[1..])
  }

  /** The key whose queue a call draws on first, and the args it names. */
  function KeyOf(c: Call): Key {
    match c case Seam(key, _) => key case Provider(model, _) => Key(Llm, Some(model))
  }

  function ArgsOf(c: Call): Json {
    match c case Seam(_, args) => args case Provider(_, input) => input
  }

  /** The calls a run makes to one key, and what they were served. */
  function CallsTo(calls: seq<Call>, k: Key): (r: seq<Call>)
    ensures forall c <- r :: KeyOf(c) == k
  {
    if calls == [] then []
    else (if KeyOf(calls[0]) == k then [calls[0]] else []) + CallsTo(calls[1..], k)
  }

  function ServedTo(calls: seq<Call>, out: seq<Option<Entry>>, k: Key): seq<Option<Entry>>
    requires |calls| == |out|
  {
    if calls == [] then []
    else (if KeyOf(calls[0]) == k then [out[0]] else []) + ServedTo(calls[1..], out[1..], k)
  }

  /** What the calls equal to `c` were served, in call order. */
  function ServedAs(calls: seq<Call>, out: seq<Option<Entry>>, c: Call): seq<Option<Entry>>
    requires |calls| == |out|
  {
    if calls == [] then [] else (if calls[0] == c then [out[0]] else []) + ServedAs(calls[1..], out[1..], c)
  }

  /** The entries recorded for exactly the call `c`, in recorded order. */
  function Recordings(es: seq<Entry>, c: Call): seq<Option<Entry>> {
    if es == [] then [] else (if CallOf(es[0]) == c then [Some(es[0])] else []) + Recordings(es[1..], c)
  }

  function CallOf(e: Entry): Call { Seam(e.key, e.args) }

  // ---------------------------------------------------------------- splitting lemmas

  lemma {:induction false} QueueConcat(a: seq<Entry>, b: seq<Entry>, k: Key)
    ensures Queue(a + b, k) == Queue(a, k) + Queue(b, k)
  {
    if a == [] {
      assert a + b == b;
    } else {
      assert (a + b)[1..] == a[1..] + b;
      QueueConcat(a[1..], b, k);
    }
  }

  lemma QueueSplit(es: seq<Entry>, i: nat, k: Key)
    requires i < |es|
    ensures Queue(es, k) == Queue(es[..i], k) + (if es[i].key == k then [es[i]] else []) + Queue(es[i + 1..], k)
    ensures Queue(Without(es, i), k) == Queue(es[..i], k) + Queue(es[i + 1..], k)
  {
    assert es == es[..i] + ([es[i]] + es[i + 1..]);
    QueueConcat(es[..i], [es[i]] + es[i + 1..], k);
    QueueConcat([es[i]], es[i + 1..], k);
    QueueConcat(es[..i], es[i + 1..], k);
  }

  lemma {:induction false} QueueEmpty(es: seq<Entry>, k: Key)
    ensures Queue(es, k) == [] <==> forall e <- es :: e.key != k
  {
    if es != [] { QueueEmpty(es[1..], k); assert es == [es[0]] + es[1..]; }
  }

  lemma {:induction false} RecordingsConcat(a: seq<Entry>, b: seq<Entry>, c: Call)
    ensures Recordings(a + b, c) == Recordings(a, c) + Recordings(b, c)
  {
    hide CallOf;
    if a == [] {
      assert a + b == b;
    } else {
      assert (a + b)[1..] == a[1..] + b;
      RecordingsConcat(a[1..], b, c);
    }
  }

  lemma {:induction false} RecordingsNone(es: seq<Entry>, c: Call)
    requires forall e <- es :: CallOf(e) != c
    ensures Recordings(es, c) == []
  {
    if es != [] { RecordingsNone(es[1..], c); }
  }

  /** Taking a recording away shortens only the recordings of its own call, at the front if it was leftmost. */
  lemma RecordingsTake(es: seq<Entry>, i: nat, d: Call)
    requires i < |es|
    requires CallOf(es[i]) == d ==> forall j :: 0 <= j < i ==> CallOf(es[j]) != d
    ensures Recordings(es, d) == (if d == CallOf(es[i]) then [Some(es[i])] else []) + Recordings(Without(es, i), d)
  {
    assert es == es[..i] + ([es[i]] + es[i + 1..]);
    RecordingsConcat(es[..i], [es[i]] + es[i + 1..], d);
    RecordingsConcat([es[i]], es[i + 1..], d);
    RecordingsConcat(es[..i], es[i + 1..], d);
    if d == CallOf(es[i]) { RecordingsNone(es[..i], d); }
  }

  // ---------------------------------------------------------------- conservation

  lemma ServedCons(e: Option<Entry>, es: seq<Option<Entry>>)
    ensures multiset(Served([e] + es)) == (if e.Some? then multiset{e.value} else multiset{}) + multiset(Served(es))
  {
    assert ([e] + es)[1..] == es;
  }

  /** Served entries plus remaining entries are the recorded entries, as multisets, after any mix of
      calls: nothing is lost and nothing is served twice. */
  lemma {:induction false} Conservation(t: Tape, calls: seq<Call>)
    ensures multiset(Run(t, calls).0.left) + multiset(Served(Run(t, calls).1)) == multiset(t.left)
    decreases |calls|
  {
    if calls != [] {
      var (t', e) := Step(t, calls[0]);
      StepConserves(t, calls[0]);
      Conservation(t', calls[1..]);
      var (t'', es) := Run(t', calls[1..]);
      ServedCons(e, es);
      assert Run(t, calls) == (t'', [e] + es);
      hide Run, Step, Served;
    }
  }

  lemma StepConserves(t: Tape, c: Call)
    ensures var (t', e) := Step(t, c);
            multiset(t'.left) + (if e.Some? then multiset{e.value} else multiset{}) == multiset(t.left)
  {
    if Step(t, c).1.Some? { WithoutMultiset(t.left, PickFor(t, c)); }
  }

  /** A call only shortens the queue of the entry it was served; every other queue is untouched. */
  lemma StepFrame(t: Tape, c: Call, k: Key)
    ensures var (t', e) := Step(t, c);
            if e.Some? && e.value.key == k
            then |Queue(t'.left, k)| == |Queue(t.left, k)| - 1
            else Queue(t'.left, k) == Queue(t.left, k)
  {
    var i := PickFor(t, c);
    if i < |t.left| { TakeFrame(t.left, i, k); }
    hide Queue, PickFor, Without;
  }

  lemma TakeFrame(es: seq<Entry>, i: nat, k: Key)
    requires i < |es|
    ensures if es[i].key == k
            then |Queue(Without(es, i), k)| == |Queue(es, k)| - 1
            else Queue(Without(es, i), k) == Queue(es, k)
  {
    QueueSplit(es, i, k);
    hide Queue, Without;
  }

  /** A queue no call of the run may reach is never touched by the run. */
  lemma {:induction false} UntouchedQueue(t: Tape, calls: seq<Call>, k: Key)
    requires forall c <- calls :: (c.Seam? && c.key != k) || (c.Provider? && k.kind != Llm)
    ensures Queue(Run(t, calls).0.left, k) == Queue(t.left, k)
    decreases |calls|
  {
    if calls != [] {
      StepFrame(t, calls[0], k);
      UntouchedQueue(Step(t, calls[0]).0, calls[1..], k);
    }
  }

  // ---------------------------------------------------------------- out-of-order replay

  predicate IsTool(c: Call) { c.Seam? && c.key.kind == Tools }

  /** The tool calls of a run, and those that were recorded. */
  function ToolCalls(calls: seq<Call>): multiset<Call> {
    if calls == [] then multiset{}
    else if IsTool(calls[0]) then multiset{calls[0]} + ToolCalls(calls[1..])
    else ToolCalls(calls[1..])
  }

  function ToolBag(es: seq<Entry>): multiset<Call> {
    if es == [] then multiset{}
    else if es[0].key.kind == Tools then multiset{CallOf(es[0])} + ToolBag(es[1..])
    else ToolBag(es[1..])
  }

  lemma {:induction false} ToolBagWithout(es: seq<Entry>, i: nat)
    requires i < |es|
    ensures ToolBag(es) ==
              if es[i].key.kind == Tools then multiset{CallOf(es[i])} + ToolBag(Without(es, i)) else ToolBag(Without(es, i))
  {
    if i == 0 {
      assert Without(es, 0) == es[1..];
    } else {
      hide CallOf;
      ToolBagWithout(es[1..], i - 1);
      assert Without(es, i)[0] == es[0] && Without(es, i)[1..] == Without(es[1..], i - 1);
    }
  }

  lemma {:induction false} ToolBagHolds(es: seq<Entry>, c: Call)
    ensures c in ToolBag(es) <==> exists e <- es :: e.key.kind == Tools && CallOf(e) == c
  {
    if es != [] {
      ToolBagHolds(es[1..], c);
      assert es == [es[0]] + es[1..];
    }
  }

  /** The run's tool calls are the recorded tool calls in some order, and every recorded tool call has args.
      LLM calls, by seam or by patched client, are arbitrary. */
  ghost predicate Permutes(left: seq<Entry>, calls: seq<Call>) {
    && (forall e <- left :: e.key.kind == Tools ==> e.args != Null)
    && ToolCalls(calls) == ToolBag(left)
  }

  lemma RunCons(t: Tape, calls: seq<Call>)
    requires calls != []
    ensures Run(t, calls).0 == Run(Step(t, calls[0]).0, calls[1..]).0
    ensures Run(t, calls).1 == [Step(t, calls[0]).1] + Run(Step(t, calls[0]).0, calls[1..]).1
  {
  }

  /** A tool call whose args were recorded is served its leftmost recording. */
  lemma StepExact(t: Tape, c: Call)
    requires IsTool(c) && c.args != Null && c in ToolBag(t.left)
    ensures Leftmost(t.left, PickFor(t, c), c)
  {
    ToolBagHolds(t.left, c);
    var e :| e in t.left && e.key.kind == Tools && CallOf(e) == c;
    var j :| 0 <= j < |t.left| && t.left[j] == e;
    assert t.left[j].key == c.key && t.left[j].args == c.args;
  }

  /** Position `i` is the first recording of exactly this call. */
  ghost predicate Leftmost(es: seq<Entry>, i: nat, c: Call) {
    i < |es| && CallOf(es[i]) == c && forall j :: 0 <= j < i ==> CallOf(es[j]) != c
  }

  /** Any other call leaves the tool entries alone. */
  lemma StepElsewhere(t: Tape, c: Call)
    requires !IsTool(c)
    ensures var i := PickFor(t, c); i < |t.left| ==> t.left[i].key.kind != Tools
  {
  }

  lemma StepPermutes(t: Tape, calls: seq<Call>)
    requires calls != [] && Permutes(t.left, calls)
    ensures Permutes(Step(t, calls[0]).0.left, calls[1..])
    ensures IsTool(calls[0]) ==> Leftmost(t.left, PickFor(t, calls[0]), calls[0])
  {
    var c, i := calls[0], PickFor(t, calls[0]);
    if IsTool(c) {
      assert c in ToolCalls(calls);
      ToolBagHolds(t.left, c);
      StepExact(t, c);
    } else {
      StepElsewhere(t, c);
    }
    var rest := ToolCalls(calls[1..]);
    assert ToolCalls(calls) == if IsTool(c) then multiset{c} + rest else rest;
    hide PickFor, ToolBag, Without;
    if i < |t.left| {
      WithoutIn(t.left, i);
      ToolBagWithout(t.left, i);
      var bag := ToolBag(Without(t.left, i));
      if IsTool(c) { assert rest == (multiset{c} + rest) - multiset{c} == (multiset{c} + bag) - multiset{c} == bag; }
    }
  }

  lemma WithoutIn(es: seq<Entry>, i: nat)
    requires i < |es|
    ensures forall e <- Without(es, i) :: e in es
  {
  }

  /** Out-of-order replay is exact: in whatever order the recorded tool calls are made, and whatever LLM calls
      lie between, each is served a recording of itself, none goes live, and no tool entry is left over. */
  lemma {:induction false} OutOfOrderReplay(t: Tape, calls: seq<Call>)
    requires Permutes(t.left, calls)
    ensures forall e <- Run(t, calls).0.left :: e.key.kind != Tools
    ensures forall i :: 0 <= i < |calls| && IsTool(calls[i]) ==>
              Run(t, calls).1[i].Some? && CallOf(Run(t, calls).1[i].value) == calls[i]
    decreases |calls|
  {
    if calls == [] {
      forall e <- t.left ensures e.key.kind != Tools { ToolBagHolds(t.left, CallOf(e)); }
    } else {
      StepPermutes(t, calls);
      OutOfOrderReplay(Step(t, calls[0]).0, calls[1..]);
      RunCons(t, calls);
    }
  }

  lemma StepRecordings(t: Tape, calls: seq<Call>, c: Call)
    requires calls != [] && Permutes(t.left, calls) && IsTool(c)
    ensures Recordings(t.left, c) ==
              (if calls[0] == c then [Step(t, c).1] else []) + Recordings(Step(t, calls[0]).0.left, c)
  {
    var i := PickFor(t, calls[0]);
    StepPermutes(t, calls);
    if !IsTool(calls[0]) { StepElsewhere(t, calls[0]); }
    hide PickFor, Recordings;
    if i < |t.left| {
      RecordingsTake(t.left, i, c);
    } else {
      assert [] + Recordings(t.left, c) == Recordings(t.left, c);
    }
  }

  /** ... and tool calls that are equal to each other get their recordings in recorded order. */
  lemma {:induction false} EqualCallsKeepOrder(t: Tape, calls: seq<Call>, c: Call)
    requires Permutes(t.left, calls) && IsTool(c)
    ensures ServedAs(calls, Run(t, calls).1, c) == Recordings(t.left, c)
    decreases |calls|
  {
    if calls == [] {
      forall e <- t.left ensures CallOf(e) != c {
        if CallOf(e) == c { ToolBagHolds(t.left, c); }
      }
      RecordingsNone(t.left, c);
    } else {
      StepRecordings(t, calls, c);
      StepPermutes(t, calls);
      var (t', e) := Step(t, calls[0]);
      EqualCallsKeepOrder(t', calls[1..], c);
      RunCons(t, calls);
      hide Step, Permutes, Recordings, Run;
      assert ([e] + Run(t', calls[1..]).1)[1..] == Run(t', calls[1..]).1;
    }
  }

  // ---------------------------------------------------------------- in-order replay

  /** A call with these args is served the head of this queue: it names none, those of the head, or some that
      no entry has. */
  predicate InStep(q: seq<Entry>, args: Json) {
    q != [] && (args == Null || q[0].args == args || forall e <- q :: e.args != args)
  }

  predicate Follows(q: seq<Entry>, calls: seq<Call>) {
    calls == [] || (InStep(q, ArgsOf(calls[0])) && Follows(q[1..], calls[1..]))
  }

  /** No patched client runs out of entries for its own model. */
  ghost predicate NoFallback(left: seq<Entry>, calls: seq<Call>) {
    forall c <- calls :: c.Provider? ==> |CallsTo(calls, KeyOf(c))| <= |Queue(left, KeyOf(c))|
  }

  /** The calls to `k`, by seam or by patched client, go along its recording. Calls to other keys are arbitrary;
      for an LLM key no patched client may run into the fallback, which could take from any queue. */
  ghost predicate Repeats(left: seq<Entry>, calls: seq<Call>, k: Key) {
    (k.kind == Llm ==> NoFallback(left, calls)) && Follows(Queue(left, k), CallsTo(calls, k))
  }

  lemma QueueHead(es: seq<Entry>, k: Key)
    requires Queue(es, k) != []
    ensures FirstKey(es, k) < |es| && es[FirstKey(es, k)] == Queue(es, k)[0]
    ensures Queue(Without(es, FirstKey(es, k)), k) == Queue(es, k)[1..]
  {
    QueueEmpty(es, k);
    var i := FirstKey(es, k);
    QueueSplit(es, i, k);
    QueueEmpty(es[..i], k);
  }

  function Somes(es: seq<Entry>): (r: seq<Option<Entry>>)
    ensures |r| == |es|
    ensures forall i :: 0 <= i < |es| ==> r[i] == Some(es[i])
  {
    seq(|es|, i requires 0 <= i < |es| => Some(es[i]))
  }

  lemma {:induction false} QueueHolds(es: seq<Entry>, e: Entry)
    requires e in es
    ensures e in Queue(es, e.key)
  {
    assert es == [es[0]] + es[1..];
    if e != es[0] { QueueHolds(es[1..], e); }
  }

  lemma HeadPicked(t: Tape, c: Call)
    requires InStep(Queue(t.left, KeyOf(c)), ArgsOf(c))
    ensures PickFor(t, c) == FirstKey(t.left, KeyOf(c))
  {
    var k, args := KeyOf(c), ArgsOf(c);
    QueueHead(t.left, k);
    var m := FirstMatch(t.left, k, args);
    if args != Null && m < |t.left| {
      QueueHolds(t.left, t.left[m]);
      assert Queue(t.left, k)[0].args == args;
    }
  }

  lemma HeadServed(t: Tape, c: Call)
    requires InStep(Queue(t.left, KeyOf(c)), ArgsOf(c))
    ensures Step(t, c).1 == Some(Queue(t.left, KeyOf(c))[0])
    ensures Queue(Step(t, c).0.left, KeyOf(c)) == Queue(t.left, KeyOf(c))[1..]
  {
    HeadPicked(t, c);
    QueueHead(t.left, KeyOf(c));
    hide Queue, PickFor, KeyOf, ArgsOf, InStep;
  }

  /** What a call is served comes from its own key, unless it is a patched client whose model has nothing left. */
  lemma OwnServed(t: Tape, c: Call)
    requires c.Provider? ==> Queue(t.left, KeyOf(c)) != []
    ensures Step(t, c).1.Some? ==> Step(t, c).1.value.key == KeyOf(c)
  {
    QueueEmpty(t.left, KeyOf(c));
  }

  lemma CallsToCons(calls: seq<Call>, k: Key)
    requires calls != []
    ensures CallsTo(calls, k) == if KeyOf(calls[0]) == k then [calls[0]] + CallsTo(calls[1..], k) else CallsTo(calls[1..], k)
  {
  }

  lemma NoFallbackStep(t: Tape, calls: seq<Call>)
    requires calls != [] && NoFallback(t.left, calls)
    ensures calls[0].Provider? ==> Queue(t.left, KeyOf(calls[0])) != []
    ensures NoFallback(Step(t, calls[0]).0.left, calls[1..])
  {
    CallsToCons(calls, KeyOf(calls[0]));
    assert calls[0] in calls;
    OwnServed(t, calls[0]);
    hide Queue, Step, CallsTo, KeyOf;
    forall c <- calls[1..] | c.Provider?
      ensures |CallsTo(calls[1..], KeyOf(c))| <= |Queue(Step(t, calls[0]).0.left, KeyOf(c))|
    {
      assert c in calls;
      CallsToCons(calls, KeyOf(c));
      StepFrame(t, calls[0], KeyOf(c));
    }
  }

  lemma RepeatsStep(t: Tape, calls: seq<Call>, k: Key)
    requires calls != [] && Repeats(t.left, calls, k)
    ensures Repeats(Step(t, calls[0]).0.left, calls[1..], k)
    ensures KeyOf(calls[0]) == k ==> Queue(t.left, k) != [] && Step(t, calls[0]).1 == Some(Queue(t.left, k)[0])
    ensures Queue(Step(t, calls[0]).0.left, k) == if KeyOf(calls[0]) == k then Queue(t.left, k)[1..] else Queue(t.left, k)
  {
    var c := calls[0];
    CallsToCons(calls, k);
    if k.kind == Llm { NoFallbackStep(t, calls); }
    if KeyOf(c) == k {
      HeadServed(t, c);
    } else {
      if k.kind == Llm || c.Seam? { OwnServed(t, c); } else { ServedKind(t, c); }
      StepFrame(t, c, k);
    }
    hide Queue, Step, CallsTo, KeyOf, NoFallback;
  }

  lemma ServedKind(t: Tape, c: Call)
    requires c.Provider?
    ensures Step(t, c).1.Some? ==> Step(t, c).1.value.key.kind == Llm
  {
  }

  lemma ServedToCons(calls: seq<Call>, e: Option<Entry>, rest: seq<Option<Entry>>, k: Key)
    requires |calls| == 1 + |rest|
    ensures ServedTo(calls, [e] + rest, k) == if KeyOf(calls[0]) == k then [e] + ServedTo(calls[1..], rest, k) else ServedTo(calls[1..], rest, k)
  {
    assert ([e] + rest)[1..] == rest;
    assert [] + ServedTo(calls[1..], rest, k) == ServedTo(calls[1..], rest, k);
  }

  lemma {:induction false} FollowsLength(q: seq<Entry>, calls: seq<Call>)
    requires Follows(q, calls)
    ensures |calls| <= |q|
  {
    if calls != [] { FollowsLength(q[1..], calls[1..]); }
  }

  lemma SomesCons(q: seq<Entry>, n: nat)
    requires n < |q|
    ensures Somes(q[..n + 1]) == [Some(q[0])] + Somes(q[1..][..n])
  {
  }

  /** In-order faithfulness, key by key: calls that go along the recording of `k` are served exactly that
      recording, in order, whatever else the run does in between. */
  lemma {:induction false} InOrderReplay(t: Tape, calls: seq<Call>, k: Key)
    requires Repeats(t.left, calls, k)
    ensures |CallsTo(calls, k)| <= |Queue(t.left, k)|
    ensures ServedTo(calls, Run(t, calls).1, k) == Somes(Queue(t.left, k)[..|CallsTo(calls, k)|])
    decreases |calls|
  {
    FollowsLength(Queue(t.left, k), CallsTo(calls, k));
    if calls != [] {
      var (t', e) := Step(t, calls[0]);
      RunCons(t, calls);
      ServedToCons(calls, e, Run(t', calls[1..]).1, k);
      RepeatsStep(t, calls, k);
      CallsToCons(calls, k);
      InOrderReplay(t', calls[1..], k);
      hide Queue, Step, CallsTo, KeyOf, Repeats, Run, ServedTo, Somes;
      if KeyOf(calls[0]) == k { SomesCons(Queue(t.left, k), |CallsTo(calls[1..], k)|); }
    }
  }

  /** The replies a faithful rerun meets are the recorded errors and outputs, never a live call. */
  lemma InOrderReplies(t: Tape, calls: seq<Call>, k: Key, i: nat)
    requires Repeats(t.left, calls, k) && i < |CallsTo(calls, k)|
    ensures var got := ServedTo(calls, Run(t, calls).1, k);
            i < |got| && i < |Queue(t.left, k)| && Deliver(got[i]) ==
              if Queue(t.left, k)[i].error.Truthy() then Raised(Queue(t.left, k)[i].error)
              else Returned(Queue(t.left, k)[i].output)
  {
    InOrderReplay(t, calls, k);
  }

  // ---------------------------------------------------------------- provider fallback

  function OfKind(es: seq<Entry>, kind: Kind): nat {
    if es == [] then 0 else (if es[0].key.kind == kind then 1 else 0) + OfKind(es[1..], kind)
  }

  lemma {:induction false} OfKindConcat(a: seq<Entry>, b: seq<Entry>, kind: Kind)
    ensures OfKind(a + b, kind) == OfKind(a, kind) + OfKind(b, kind)
  {
    if a == [] {
      assert a + b == b;
    } else {
      assert (a + b)[1..] == a[1..] + b;
      OfKindConcat(a[1..], b, kind);
    }
  }

  lemma {:induction false} OfKindZero(es: seq<Entry>, kind: Kind)
    ensures OfKind(es, kind) == 0 <==> forall e <- es :: e.key.kind != kind
  {
    if es != [] { OfKindZero(es[1..], kind); assert es == [es[0]] + es[1..]; }
  }

  lemma OfKindWithout(es: seq<Entry>, i: nat, kind: Kind)
    requires i < |es|
    ensures OfKind(Without(es, i), kind) == OfKind(es, kind) - (if es[i].key.kind == kind then 1 else 0)
  {
    assert es == es[..i] + ([es[i]] + es[i + 1..]);
    OfKindConcat(es[..i], [es[i]] + es[i + 1..], kind);
    OfKindConcat(es[..i], es[i + 1..], kind);
  }

  lemma {:induction false} PickAnyMisses(recorded: seq<Entry>, es: seq<Entry>, kind: Kind)
    requires PickAny(recorded, es, kind) == |es|
    ensures forall e <- recorded, f <- es :: e.key.kind == kind ==> f.key != e.key
  {
    if recorded != [] {
      PickAnyMisses(recorded[1..], es, kind);
      assert recorded == [recorded[0]] + recorded[1..];
    }
  }

  /** The fallback serves the head of a queue, and every queue of that kind first recorded before it
      is already empty. */
  lemma {:induction false} PickAnyIsFirst(recorded: seq<Entry>, es: seq<Entry>, kind: Kind)
    requires PickAny(recorded, es, kind) < |es|
    ensures var k := es[PickAny(recorded, es, kind)].key;
            && Queue(es, k) != [] && es[PickAny(recorded, es, kind)] == Queue(es, k)[0]
            && PickAny(recorded, es, kind) == FirstKey(es, k) && FirstKey(recorded, k) < |recorded|
            && forall j :: 0 <= j < FirstKey(recorded, k) && recorded[j].key.kind == kind ==> Queue(es, recorded[j].key) == []
  {
    var k := es[PickAny(recorded, es, kind)].key;
    QueueEmpty(es, recorded[0].key);
    if recorded[0].key.kind == kind && FirstKey(es, recorded[0].key) < |es| {
      QueueHead(es, recorded[0].key);
    } else {
      PickAnyIsFirst(recorded[1..], es, kind);
      assert recorded[0].key != k;
    }
  }

  /** A patched client is served from its own model's queue as long as that queue has entries. */
  lemma ProviderPrefersItsModel(t: Tape, model: string, input: Json)
    requires Queue(t.left, Key(Llm, Some(model))) != []
    ensures Step(t, Provider(model, input)) == Step(t, Seam(Key(Llm, Some(model)), input))
  {
    QueueEmpty(t.left, Key(Llm, Some(model)));
  }

  /** ... and once that is empty, from the head of the first LLM queue, in order of first recording, that is not; it goes
      live exactly when none is left. */
  lemma FallbackServes(t: Tape, model: string, input: Json)
    requires Queue(t.left, Key(Llm, Some(model))) == []
    ensures var (t', e) := Step(t, Provider(model, input));
            && (e.Some? ==>
                  var k := e.value.key;
                  && k.kind == Llm && Queue(t.left, k) != [] && e.value == Queue(t.left, k)[0] && Queue(t'.left, k) == Queue(t.left, k)[1..]
                  && FirstKey(t.recorded, k) < |t.recorded|
                  && forall j :: 0 <= j < FirstKey(t.recorded, k) && t.recorded[j].key.kind == Llm ==> Queue(t.left, t.recorded[j].key) == [])
            && (e.None? && WellFormed(t) ==> forall f <- t.left :: f.key.kind != Llm)
  {
    QueueEmpty(t.left, Key(Llm, Some(model)));
    var i := PickAny(t.recorded, t.left, Llm);
    if i < |t.left| {
      PickAnyIsFirst(t.recorded, t.left, Llm);
      QueueHead(t.left, t.left[i].key);
    } else if WellFormed(t) {
      PickAnyMisses(t.recorded, t.left, Llm);
    }
    hide Queue, PickAny, Pick, FirstKey, Without;
  }

  ghost predicate WellFormed(t: Tape) {
    forall e <- t.left :: exists f <- t.recorded :: f.key == e.key
  }

  lemma StepWellFormed(t: Tape, c: Call)
    requires WellFormed(t)
    ensures WellFormed(Step(t, c).0)
  {
  }

  function Providers(calls: seq<Call>): nat {
    if calls == [] then 0 else (if calls[0].Provider? then 1 else 0) + Providers(calls[1..])
  }

  /** How many provider calls of the run were served rather than sent to the network. */
  function ServedProviders(calls: seq<Call>, out: seq<Option<Entry>>): nat
    requires |calls| == |out|
  {
    if calls == [] then 0
    else (if calls[0].Provider? && out[0].Some? then 1 else 0) + ServedProviders(calls[1..], out[1..])
  }

  /** When only patched clients consume LLM entries, exactly min(calls, recorded) of their calls are
      served, whatever models and inputs they name; the rest go live. */
  lemma {:induction false} ProviderCount(t: Tape, calls: seq<Call>)
    requires WellFormed(t)
    requires forall c <- calls :: c.Seam? ==> c.key.kind == Tools
    ensures ServedProviders(calls, Run(t, calls).1) == Min(Providers(calls), OfKind(t.left, Llm))
    decreases |calls|
  {
    if calls != [] {
      var c := calls[0];
      var (t', e) := Step(t, c);
      var i := PickFor(t, c);
      StepWellFormed(t, c);
      if i < |t.left| {
        OfKindWithout(t.left, i, Llm);
      } else if c.Provider? {
        PickAnyMisses(t.recorded, t.left, Llm);
        OfKindZero(t.left, Llm);
      }
      OfKindZero(t.left, Llm);
      ProviderCount(t', calls[1..]);
      assert Run(t, calls).1[1..] == Run(t', calls[1..]).1;
    }
  }
}
