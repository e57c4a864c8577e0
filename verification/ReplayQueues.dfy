/** The store of a `fixtures` block as the SDK keeps it: one queue per key, filled from the bundle in a
    loop and popped in place. Every method is proved against the flat list of module Replay. */
module ReplayQueues {
  import opened Prelude
  import opened Replay

  /** One element of a v2 bundle section; `None` is a field the bundle does not have. */
  datatype RawEntry = RawEntry(
    name: Option<string>,
    model: Option<string>,
    args: Option<Json>,
    input: Option<Json>,
    output: Option<Json>,
    error: Option<Json>)

  /** v2 lists entries in recorded order; v1 maps a name to its one output. */
  datatype Section = Absent | Listed(entries: seq<RawEntry>) | Legacy(items: seq<(string, Json)>)

  datatype Bundle = Bundle(tools: Section, llm: Section)

  function OrNull(o: Option<Json>): Json {
    if o.Some? then o.value else Null
  }

  /** LLM entries keep their call input under "input", falling back to "args" only when it is absent. */
  function FromRaw(kind: Kind, e: RawEntry): Entry {
    Entry(
      Key(kind, if kind == Tools then e.name else e.model),
      if kind == Llm && e.input.Some? then e.input.value else OrNull(e.args),
      OrNull(e.output),
      OrNull(e.error))
  }

  function FromLegacy(kind: Kind, item: (string, Json)): Entry {
    Entry(Key(kind, Some(item.0)), Null, item.1, Null)
  }

  function RecordedIn(kind: Kind, s: Section): seq<Entry> {
    match s
    case Absent => []
    case Listed(es) => seq(|es|, i requires 0 <= i < |es| => FromRaw(kind, es[i]))
    case Legacy(items) => seq(|items|, i requires 0 <= i < |items| => FromLegacy(kind, items[i]))
  }

  function Recorded(b: Bundle): seq<Entry> {
    RecordedIn(Tools, b.tools) + RecordedIn(Llm, b.llm)
  }

  /** Keys in order of first recording: the insertion order of the store's dictionaries. */
  function KeyOrder(es: seq<Entry>): (ks: seq<Key>)
    ensures forall k :: k in ks <==> exists e <- es :: e.key == k
  {
    if es == [] then []
    else
      var ks := KeyOrder(es[..|es| - 1]);
      var k := es[|es| - 1].key;
      assert es == es[..|es| - 1] + [es[|es| - 1]];
      if k in ks then ks else ks + [k]
  }

  /** The fallback's scan over the key order picks what the flat scan over the recording picks. */
  function FirstLive(ks: seq<Key>, es: seq<Entry>, kind: Kind): (k: Option<Key>)
    ensures k.Some? ==> k.value in ks && k.value.kind == kind && Queue(es, k.value) != []
    ensures k.None? ==> forall m <- ks :: m.kind == kind ==> Queue(es, m) == []
  {
    if ks == [] then None
    else if ks[0].kind == kind && Queue(es, ks[0]) != [] then Some(ks[0])
    else FirstLive(ks[1..], es, kind)
  }

  lemma {:induction false} PickAnyConcat(a: seq<Entry>, b: seq<Entry>, es: seq<Entry>, kind: Kind)
    ensures PickAny(a + b, es, kind) == if PickAny(a, es, kind) < |es| then PickAny(a, es, kind) else PickAny(b, es, kind)
  {
    if a == [] {
      assert a + b == b;
    } else {
      assert (a + b)[1..] == a[1..] + b;
      PickAnyConcat(a[1..], b, es, kind);
    }
  }

  lemma {:induction false} FirstLiveConcat(a: seq<Key>, b: seq<Key>, es: seq<Entry>, kind: Kind)
    ensures FirstLive(a + b, es, kind) == if FirstLive(a, es, kind).Some? then FirstLive(a, es, kind) else FirstLive(b, es, kind)
  {
    if a == [] {
      assert a + b == b;
    } else {
      assert (a + b)[1..] == a[1..] + b;
      FirstLiveConcat(a[1..], b, es, kind);
    }
  }

  lemma KeyOrderGrows(es: seq<Entry>, e: Entry)
    ensures KeyOrder(es + [e]) == if e.key in KeyOrder(es) then KeyOrder(es) else KeyOrder(es) + [e.key]
  {
    assert (es + [e])[..|es|] == es;
  }

  lemma OneKey(e: Entry, es: seq<Entry>, kind: Kind)
    ensures var live := e.key.kind == kind && Queue(es, e.key) != [];
            && FirstLive([e.key], es, kind) == (if live then Some(e.key) else None)
            && PickAny([e], es, kind) == (if live then FirstKey(es, e.key) else |es|)
  {
    QueueEmpty(es, e.key);
  }

  lemma {:induction false} FallbackAgrees(recorded: seq<Entry>, es: seq<Entry>, kind: Kind)
    ensures PickAny(recorded, es, kind) ==
            match FirstLive(KeyOrder(recorded), es, kind) case None => |es| case Some(k) => FirstKey(es, k)
  {
    if recorded != [] {
      var init, last := recorded[..|recorded| - 1], recorded[|recorded| - 1];
      assert recorded == init + [last];
      FallbackAgrees(init, es, kind);
      hide Queue, FirstKey, FirstLive, PickAny, KeyOrder;
      KeyOrderGrows(init, last);
      PickAnyConcat(init, [last], es, kind);
      OneKey(last, es, kind);
      FirstLiveConcat(KeyOrder(init), [last.key], es, kind);
      var live := FirstLive(KeyOrder(init), es, kind);
      if live.Some? { QueueHead(es, live.value); }
    }
  }

  /** `_pop_fixture_any` on the flat list. */
  function StepAny(t: Tape, kind: Kind): (Tape, Option<Entry>) {
    var i := PickAny(t.recorded, t.left, kind);
    if i < |t.left| then (t.(left := Without(t.left, i)), Some(t.left[i])) else (t, None)
  }

  /** Popping position `i` of a queue is removing one entry of the flat list. */
  lemma QueuePop(es: seq<Entry>, i: nat, key: Key)
    requires i < |es| && es[i].key == key
    ensures var p := |Queue(es[..i], key)|;
            && p < |Queue(es, key)| && Queue(es, key)[p] == es[i]
            && Queue(Without(es, i), key) == Without(Queue(es, key), p)
  {
    QueueSplit(es, i, key);
    hide Queue, Without;
    WithoutMiddle(Queue(es[..i], key), es[i], Queue(es[i + 1..], key));
  }

  lemma WithoutMiddle<T>(a: seq<T>, x: T, b: seq<T>)
    ensures (a + [x] + b)[|a|] == x && Without(a + [x] + b, |a|) == a + b
  {
  }

  /** The leftmost args-match in the flat list is the leftmost args-match in the queue. */
  lemma MatchInQueue(es: seq<Entry>, key: Key, args: Json)
    ensures var i := FirstMatch(es, key, args);
            var q := Queue(es, key);
            if i < |es|
            then var p := |Queue(es[..i], key)|; p < |q| && q[p].args == args && forall j :: 0 <= j < p ==> q[j].args != args
            else forall e <- q :: e.args != args
  {
    var i := FirstMatch(es, key, args);
    if i < |es| {
      QueueSplit(es, i, key);
      var before := Queue(es[..i], key);
      forall j | 0 <= j < |before| ensures before[j].args != args {
        assert before[j] in before;
      }
    }
  }

  lemma AppendOne(es: seq<Entry>, e: Entry, k: Key)
    ensures Queue(es + [e], k) == if e.key == k then Queue(es, k) + [e] else Queue(es, k)
  {
    QueueConcat(es, [e], k);
  }

  /** Removing one entry of the flat list leaves the queues of all other keys alone. */
  lemma OthersKept(es: seq<Entry>, i: nat, k: Key)
    requires i < |es| && k != es[i].key
    ensures Queue(Without(es, i), k) == Queue(es, k)
  {
    QueueSplit(es, i, k);
  }

  /** `store[kind].get(name)`, with an empty list for a missing one. */
  function QueueIn(queues: map<Key, seq<Entry>>, k: Key): seq<Entry> {
    if k in queues then queues[k] else []
  }

  /** The queues are the flat list grouped by key, and the dictionaries keep first-recording order. */
  ghost predicate Grouped(order: seq<Key>, queues: map<Key, seq<Entry>>, t: Tape) {
    && order == KeyOrder(t.recorded)
    && (forall k :: k in queues <==> k in order)
    && (forall k :: QueueIn(queues, k) == Queue(t.left, k))
  }

  lemma GroupedAt(order: seq<Key>, queues: map<Key, seq<Entry>>, t: Tape, k: Key)
    requires Grouped(order, queues, t)
    ensures QueueIn(queues, k) == Queue(t.left, k) && (k in queues <==> k in order)
  {
    hide KeyOrder, Queue;
  }

  lemma KeyHere(order: seq<Key>, queues: map<Key, seq<Entry>>, t: Tape, k: Key)
    requires Grouped(order, queues, t) && k in order
    ensures k in queues && queues[k] == Queue(t.left, k)
  {
    GroupedAt(order, queues, t, k);
    hide Grouped;
  }

  lemma QueuesAppend(queues: map<Key, seq<Entry>>, left: seq<Entry>, e: Entry)
    requires forall k :: QueueIn(queues, k) == Queue(left, k)
    ensures forall k :: QueueIn(queues[e.key := QueueIn(queues, e.key) + [e]], k) == Queue(left + [e], k)
  {
    hide Queue;
    forall k ensures QueueIn(queues[e.key := QueueIn(queues, e.key) + [e]], k) == Queue(left + [e], k) {
      assert QueueIn(queues, k) == Queue(left, k);
      AppendOne(left, e, k);
    }
  }

  lemma GroupedAppend(order: seq<Key>, queues: map<Key, seq<Entry>>, t: Tape, e: Entry)
    requires Grouped(order, queues, t) && t.left == t.recorded
    ensures Grouped(if e.key in queues then order else order + [e.key], queues[e.key := QueueIn(queues, e.key) + [e]],
                    Tape(t.recorded + [e], t.left + [e]))
  {
    KeyOrderGrows(t.recorded, e);
    QueuesAppend(queues, t.left, e);
    hide KeyOrder, Queue;
  }

  lemma GroupedTake(order: seq<Key>, queues: map<Key, seq<Entry>>, t: Tape, i: nat)
    requires Grouped(order, queues, t) && i < |t.left|
    ensures t.left[i].key in queues
    ensures var k := t.left[i].key;
            Grouped(order, queues[k := Queue(Without(t.left, i), k)], t.(left := Without(t.left, i)))
  {
    var key := t.left[i].key;
    QueueEmpty(t.left, key);
    assert QueueIn(queues, key) == Queue(t.left, key);
    hide KeyOrder, Queue, Without;
    var left := Without(t.left, i);
    forall k ensures QueueIn(queues[key := Queue(left, key)], k) == Queue(left, k) {
      if k != key {
        assert QueueIn(queues, k) == Queue(t.left, k);
        OthersKept(t.left, i, k);
      }
    }
  }

  /** The position `_pop_fixture` takes from a queue: the leftmost args-match, else the head. */
  ghost predicate PopsAt(q: seq<Entry>, args: Json, p: nat) {
    && p < |q|
    && if args != Null && exists e <- q :: e.args == args
       then q[p].args == args && forall j :: 0 <= j < p ==> q[j].args != args
       else p == 0
  }

  lemma PickInQueue(es: seq<Entry>, key: Key, args: Json, p: nat)
    requires PopsAt(Queue(es, key), args, p)
    ensures var i := Pick(es, key, args);
            i < |es| && es[i] == Queue(es, key)[p] && Queue(Without(es, i), key) == Without(Queue(es, key), p)
  {
    hide Queue, Without;
    var i := Pick(es, key, args);
    QueueEmpty(es, key);
    MatchInQueue(es, key, args);
    QueuePop(es, i, key);
    if i == FirstKey(es, key) {
      QueueEmpty(es[..i], key);
    }
  }

  lemma GroupedPop(order: seq<Key>, queues: map<Key, seq<Entry>>, t: Tape, key: Key, args: Json, p: nat)
    requires Grouped(order, queues, t) && key in queues && PopsAt(queues[key], args, p)
    ensures Step(t, Seam(key, args)).1 == Some(queues[key][p])
    ensures Grouped(order, queues[key := Without(queues[key], p)], Step(t, Seam(key, args)).0)
  {
    assert QueueIn(queues, key) == Queue(t.left, key);
    PickInQueue(t.left, key, args, p);
    GroupedTake(order, queues, t, Pick(t.left, key, args));
  }

  lemma GroupedMiss(order: seq<Key>, queues: map<Key, seq<Entry>>, t: Tape, key: Key, args: Json)
    requires Grouped(order, queues, t) && (key !in queues || queues[key] == [])
    ensures Step(t, Seam(key, args)) == (t, None)
  {
    assert QueueIn(queues, key) == Queue(t.left, key);
    QueueEmpty(t.left, key);
  }

  /** Popping the head of the first live queue is the fallback on the flat list. */
  lemma GroupedPopAny(order: seq<Key>, queues: map<Key, seq<Entry>>, t: Tape, kind: Kind)
    requires Grouped(order, queues, t)
    ensures match FirstLive(order, t.left, kind)
            case None => StepAny(t, kind) == (t, None)
            case Some(k) =>
              && k in queues && queues[k] != []
              && StepAny(t, kind).1 == Some(queues[k][0])
              && Grouped(order, queues[k := queues[k][1..]], StepAny(t, kind).0)
  {
    assert order == KeyOrder(t.recorded);
    hide Grouped, Queue, FirstKey, PickAny, KeyOrder, FirstLive, Without;
    FallbackAgrees(t.recorded, t.left, kind);
    var live := FirstLive(order, t.left, kind);
    if live.Some? {
      KeyHere(order, queues, t, live.value);
      QueueHead(t.left, live.value);
      GroupedTake(order, queues, t, FirstKey(t.left, live.value));
    }
  }

  // ---------------------------------------------------------------- what a store holds

  /** A field the recording does not have reads as null. */
  function Field(o: Option<Json>): Json {
    match o case Some(v) => v case None => Null
  }

  /** What an element is recorded under: tools by name, LLM calls by model. */
  function NameOf(kind: Kind, r: RawEntry): Option<string> {
    match kind case Tools => r.name case Llm => r.model
  }

  /** The arguments a recorded call was made with: an LLM call's are its input, or else its args. */
  function AskedWith(kind: Kind, r: RawEntry): Json {
    match kind
    case Tools => Field(r.args)
    case Llm => if r.input.None? then Field(r.args) else r.input.value
  }

  /** The elements of a list that are recorded under one name, in order. */
  function Under(kind: Kind, name: Option<string>, rs: seq<RawEntry>): seq<RawEntry> {
    if rs == [] then []
    else
      var before, last := Under(kind, name, rs[..|rs| - 1]), rs[|rs| - 1];
      if NameOf(kind, last) == name then before + [last] else before
  }

  /** The outputs of a dictionary under one name. */
  function OutputsUnder(name: Option<string>, items: seq<(string, Json)>): seq<Json> {
    if items == [] then []
    else
      var before, last := OutputsUnder(name, items[..|items| - 1]), items[|items| - 1];
      if Some(last.0) == name then before + [last.1] else before
  }

  function SectionOf(b: Bundle, kind: Kind): Section {
    match kind case Tools => b.tools case Llm => b.llm
  }

  predicate MatchesOne(k: Key, e: Entry, r: RawEntry) {
    e.key == k && e.args == AskedWith(k.kind, r) && e.output == Field(r.output) && e.error == Field(r.error)
  }

  predicate Matches(k: Key, q: seq<Entry>, mine: seq<RawEntry>) {
    |q| == |mine| && forall i :: 0 <= i < |q| ==> MatchesOne(k, q[i], mine[i])
  }

  /** This queue holds what the section records under this key, in order, with its arguments, outputs and errors. */
  ghost predicate Holds(s: Section, k: Key, q: seq<Entry>) {
    match s
    case Absent => q == []
    case Listed(rs) => Matches(k, q, Under(k.kind, k.name, rs))
    case Legacy(items) =>
      var mine := OutputsUnder(k.name, items);
      && |q| == |mine|
      && forall i :: 0 <= i < |q| ==> q[i].key == k && q[i].args == Null && q[i].output == mine[i] && q[i].error == Null
  }

  lemma {:induction false} ListedHolds(rs: seq<RawEntry>, k: Key)
    ensures Holds(Listed(rs), k, Queue(RecordedIn(k.kind, Listed(rs)), k))
  {
    if rs != [] {
      var before, last := rs[..|rs| - 1], rs[|rs| - 1];
      ListedHolds(before, k);
      var es := RecordedIn(k.kind, Listed(before));
      assert RecordedIn(k.kind, Listed(rs)) == es + [FromRaw(k.kind, last)];
      AppendOne(es, FromRaw(k.kind, last), k);
      assert NameOf(k.kind, last) == k.name ==> MatchesOne(k, FromRaw(k.kind, last), last);
      hide FromRaw, MatchesOne, RecordedIn, Queue;
    }
  }

  lemma {:induction false} LegacyHolds(items: seq<(string, Json)>, k: Key)
    ensures Holds(Legacy(items), k, Queue(RecordedIn(k.kind, Legacy(items)), k))
  {
    if items != [] {
      var before, last := items[..|items| - 1], items[|items| - 1];
      LegacyHolds(before, k);
      var es := RecordedIn(k.kind, Legacy(before));
      assert RecordedIn(k.kind, Legacy(items)) == es + [FromLegacy(k.kind, last)];
      AppendOne(es, FromLegacy(k.kind, last), k);
    }
  }

  lemma OtherKind(kind: Kind, s: Section, k: Key)
    requires k.kind != kind
    ensures Queue(RecordedIn(kind, s), k) == []
  {
    QueueEmpty(RecordedIn(kind, s), k);
  }

  /** Each queue of a fresh store is what the bundle records under its key. */
  lemma StoreHolds(b: Bundle, k: Key)
    ensures Holds(SectionOf(b, k.kind), k, Queue(Recorded(b), k))
  {
    QueueConcat(RecordedIn(Tools, b.tools), RecordedIn(Llm, b.llm), k);
    OtherKind(if k.kind == Tools then Llm else Tools, if k.kind == Tools then b.llm else b.tools, k);
    var s := SectionOf(b, k.kind);
    match s
    case Absent =>
    case Listed(rs) => ListedHolds(rs, k);
    case Legacy(items) => LegacyHolds(items, k);
    assert Queue(Recorded(b), k) == Queue(RecordedIn(k.kind, s), k);
  }

  class FixtureStore {
    /** Insertion order of the dictionaries, and the queues themselves. */
    var order: seq<Key>
    var queues: map<Key, seq<Entry>>
    ghost var tape: Tape

    ghost predicate Valid()
      reads this
    {
      Grouped(order, queues, tape)
    }

    /** `_normalize_bundle`. */
    constructor (b: Bundle)
      ensures Valid()
      ensures tape == Tape(Recorded(b), Recorded(b))
      ensures forall k: Key :: Holds(SectionOf(b, k.kind), k, QueueIn(queues, k))
    {
      order, queues, tape := [], map[], Tape([], []);
      new;
      AddSection(Tools, b.tools);
      AddSection(Llm, b.llm);
      assert [] + RecordedIn(Tools, b.tools) == RecordedIn(Tools, b.tools);
      forall k: Key ensures Holds(SectionOf(b, k.kind), k, QueueIn(queues, k)) {
        StoreHolds(b, k);
        GroupedAt(order, queues, tape, k);
      }
    }

    /** `store[kind].setdefault(key, []).append(entry)`. */
    method Append(e: Entry)
      requires Valid() && tape.left == tape.recorded
      modifies this
      ensures Valid() && tape == Tape(old(tape.recorded) + [e], old(tape.left) + [e])
    {
      GroupedAppend(order, queues, tape, e);
      hide Grouped, Queue, KeyOrder;
      var q := QueueIn(queues, e.key);
      if e.key !in queues {
        order := order + [e.key];
      }
      queues := queues[e.key := q + [e]];
      tape := Tape(tape.recorded + [e], tape.left + [e]);
    }

    method AddSection(kind: Kind, s: Section)
      requires Valid() && tape.left == tape.recorded
      modifies this
      ensures Valid() && tape.left == tape.recorded == old(tape.recorded) + RecordedIn(kind, s)
    {
      hide Grouped;
      ghost var es := RecordedIn(kind, s);
      match s
      case Absent =>
      case Listed(entries) =>
        for i := 0 to |entries|
          invariant Valid() && tape.left == tape.recorded == old(tape.recorded) + es[..i]
        {
          Append(FromRaw(kind, entries[i]));
          assert es[..i + 1] == es[..i] + [es[i]];
        }
      case Legacy(items) =>
        for i := 0 to |items|
          invariant Valid() && tape.left == tape.recorded == old(tape.recorded) + es[..i]
        {
          Append(FromLegacy(kind, items[i]));
          assert es[..i + 1] == es[..i] + [es[i]];
        }
    }

    /** Where in its queue `_pop_fixture` takes the entry from. */
    method FindInQueue(q: seq<Entry>, args: Json) returns (p: nat)
      requires q != []
      ensures PopsAt(q, args, p)
    {
      if args != Null {
        for i := 0 to |q|
          invariant forall j :: 0 <= j < i ==> q[j].args != args
        {
          if q[i].args == args {
            return i;
          }
        }
      }
      return 0;
    }

    /** `_pop_fixture`. */
    method Pop(key: Key, args: Json) returns (e: Option<Entry>)
      requires Valid()
      modifies this
      ensures Valid()
      ensures (tape, e) == Step(old(tape), Seam(key, args))
    {
      hide Grouped, Step, Without;
      if key !in queues || queues[key] == [] {
        GroupedMiss(order, queues, tape, key, args);
        return None;
      }
      var p := FindInQueue(queues[key], args);
      GroupedPop(order, queues, tape, key, args, p);
      e := Some(queues[key][p]);
      queues := queues[key := Without(queues[key], p)];
      tape := Step(tape, Seam(key, args)).0;
    }

    /** The scan over the dictionary for the first queue of this kind that has entries. */
    method FindLive(kind: Kind) returns (k: Option<Key>)
      requires Valid()
      ensures k == FirstLive(order, tape.left, kind)
    {
      hide Grouped, Queue;
      for j := 0 to |order|
        invariant FirstLive(order, tape.left, kind) == FirstLive(order[j..], tape.left, kind)
      {
        KeyHere(order, queues, tape, order[j]);
        if order[j].kind == kind && queues[order[j]] != [] {
          return Some(order[j]);
        }
      }
      return None;
    }

    /** `_pop_fixture_any`. */
    method PopAny(kind: Kind) returns (e: Option<Entry>)
      requires Valid()
      modifies this
      ensures Valid()
      ensures (tape, e) == StepAny(old(tape), kind)
    {
      var found := FindLive(kind);
      GroupedPopAny(order, queues, tape, kind);
      hide Grouped, StepAny, FirstLive;
      if found.None? {
        return None;
      }
      e := Some(queues[found.value][0]);
      queues := queues[found.value := queues[found.value][1..]];
      tape := StepAny(tape, kind).0;
    }

    /** `_serve`: the model's own queue first, then the order fallback. */
    method Serve(model: string, input: Json) returns (e: Option<Entry>)
      requires Valid()
      modifies this
      ensures Valid()
      ensures (tape, e) == Step(old(tape), Provider(model, input))
    {
      e := Pop(Key(Llm, Some(model)), input);
      if e.None? {
        e := PopAny(Llm);
      }
    }

    /** `_unconsumed`: every key with entries left, and how many. */
    method Unconsumed() returns (left: seq<(Key, nat)>)
      requires Valid()
      ensures left == [] <==> tape.left == []
      ensures forall k, n :: (k, n) in left <==> n == |Queue(tape.left, k)| && n > 0
    {
      hide Queue, KeyOrder;
      left := [];
      for j := 0 to |order|
        invariant left != [] ==> tape.left != []
        invariant forall k, n :: (k, n) in left <==> k in order[..j] && n == |Queue(tape.left, k)| && n > 0
      {
        assert order[..j + 1] == order[..j] + [order[j]];
        assert QueueIn(queues, order[j]) == Queue(tape.left, order[j]);
        if queues[order[j]] != [] {
          QueueEmpty(tape.left, order[j]);
          left := left + [(order[j], |queues[order[j]]|)];
        }
      }
      assert order[..|order|] == order;
      if tape.left != [] {
        var k := tape.left[0].key;
        QueueEmpty(tape.left, k);
        assert QueueIn(queues, k) == Queue(tape.left, k);
        assert (k, |Queue(tape.left, k)|) in left;
      }
      forall k | Queue(tape.left, k) != [] ensures k in order {
        assert QueueIn(queues, k) == Queue(tape.left, k);
      }
    }
  }
}
