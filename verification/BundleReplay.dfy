/** From a bundle as it was recorded to what a rerun meets: the replies of a whole run, told of the outputs and
    errors in the bundle. */
module BundleReplay {
  import opened Prelude
  import opened Replay
  import opened ReplayQueues

  // ---------------------------------------------------------------- what a rerun meets

  /** What the recorded call came to: its error if it has one, else its output. */
  function Said(r: RawEntry): Reply {
    if Field(r.error).Truthy() then Raised(Field(r.error)) else Returned(Field(r.output))
  }

  /** The replies recorded under one key. */
  function Replies(s: Section, k: Key): seq<Reply> {
    match s
    case Absent => []
    case Listed(rs) =>
      var mine := Under(k.kind, k.name, rs);
      seq(|mine|, i requires 0 <= i < |mine| => Said(mine[i]))
    case Legacy(items) =>
      var mine := OutputsUnder(k.name, items);
      seq(|mine|, i requires 0 <= i < |mine| => Returned(mine[i]))
  }

  /** In order: the n-th call to a key, from a seam or a patched client, meets the n-th reply recorded under it. */
  lemma RerunInOrder(b: Bundle, calls: seq<Call>, k: Key, i: nat)
    requires Repeats(Recorded(b), calls, k) && i < |CallsTo(calls, k)|
    ensures var got := ServedTo(calls, Run(Tape(Recorded(b), Recorded(b)), calls).1, k);
            var replies := Replies(SectionOf(b, k.kind), k);
            i < |got| && i < |replies| && Deliver(got[i]) == replies[i]
  {
    StoreHolds(b, k);
    InOrderReplies(Tape(Recorded(b), Recorded(b)), calls, k, i);
    hide Queue, Run, Repeats, Recorded, CallsTo, ServedTo, Deliver;
  }

  /** The recorded element is a tool call with the name and arguments of `c`. */
  predicate Records(r: RawEntry, c: Call) {
    c.Seam? && c.key == Key(Tools, r.name) && c.args == Field(r.args)
  }

  function RecordedBefore(rs: seq<RawEntry>, c: Call): nat {
    if rs == [] then 0 else RecordedBefore(rs[..|rs| - 1], c) + if Records(rs[|rs| - 1], c) then 1 else 0
  }

  function MadeBefore(calls: seq<Call>, c: Call): nat {
    if calls == [] then 0 else MadeBefore(calls[..|calls| - 1], c) + if calls[|calls| - 1] == c then 1 else 0
  }

  lemma {:induction false} ServedAsSnoc(calls: seq<Call>, out: seq<Option<Entry>>, c: Call)
    requires |calls| == |out| && calls != []
    ensures var n := |calls| - 1;
            ServedAs(calls, out, c) == ServedAs(calls[..n], out[..n], c) + if calls[n] == c then [out[n]] else []
    decreases |calls|
  {
    var n := |calls| - 1;
    if n > 0 {
      ServedAsSnoc(calls[1..], out[1..], c);
      assert calls[1..][..n - 1] == calls[..n][1..] && out[1..][..n - 1] == out[..n][1..];
    }
  }

  /** The reply to a call stands where the equal calls before it put it. */
  lemma {:induction false} ServedAsAt(calls: seq<Call>, out: seq<Option<Entry>>, i: nat)
    requires |calls| == |out| && i < |calls|
    ensures var n := MadeBefore(calls[..i], calls[i]);
            n < |ServedAs(calls, out, calls[i])| && ServedAs(calls, out, calls[i])[n] == out[i]
    ensures |ServedAs(calls, out, calls[i])| == MadeBefore(calls, calls[i])
    decreases |calls|
  {
    var n, c := |calls| - 1, calls[i];
    ServedAsSnoc(calls, out, c);
    if i < n {
      ServedAsAt(calls[..n], out[..n], i);
      assert calls[..n][..i] == calls[..i];
    } else {
      ServedAsCount(calls[..n], out[..n], c);
    }
  }

  lemma {:induction false} ServedAsCount(calls: seq<Call>, out: seq<Option<Entry>>, c: Call)
    requires |calls| == |out|
    ensures |ServedAs(calls, out, c)| == MadeBefore(calls, c)
    decreases |calls|
  {
    if calls != [] {
      ServedAsSnoc(calls, out, c);
      ServedAsCount(calls[..|calls| - 1], out[..|calls| - 1], c);
    }
  }

  lemma {:induction false} RecordingsSnoc(es: seq<Entry>, e: Entry, c: Call)
    ensures Recordings(es + [e], c) == Recordings(es, c) + if CallOf(e) == c then [Some(e)] else []
  {
    if es != [] {
      assert (es + [e])[1..] == es[1..] + [e];
      RecordingsSnoc(es[1..], e, c);
    }
  }

  lemma {:induction false} RecordingsPrefix(es: seq<Entry>, more: seq<Entry>, c: Call)
    requires forall e <- more :: CallOf(e) != c
    ensures Recordings(es + more, c) == Recordings(es, c)
    decreases |more|
  {
    if more == [] {
      assert es + more == es;
    } else {
      var last := more[|more| - 1];
      assert es + more == (es + more[..|more| - 1]) + [last];
      RecordingsSnoc(es + more[..|more| - 1], last, c);
      RecordingsPrefix(es, more[..|more| - 1], c);
    }
  }

  /** The n-th recording of a call is the element with n such elements before it. */
  lemma {:induction false} RecordingsAt(rs: seq<RawEntry>, c: Call, n: nat) returns (j: nat)
    requires n < |Recordings(RecordedIn(Tools, Listed(rs)), c)|
    ensures j < |rs| && Records(rs[j], c) && RecordedBefore(rs[..j], c) == n
    ensures Recordings(RecordedIn(Tools, Listed(rs)), c)[n] == Some(FromRaw(Tools, rs[j]))
    ensures |Recordings(RecordedIn(Tools, Listed(rs)), c)| == RecordedBefore(rs, c)
    decreases |rs|
  {
    var before, last := rs[..|rs| - 1], rs[|rs| - 1];
    var es := RecordedIn(Tools, Listed(before));
    assert RecordedIn(Tools, Listed(rs)) == es + [FromRaw(Tools, last)];
    RecordingsSnoc(es, FromRaw(Tools, last), c);
    assert CallOf(FromRaw(Tools, last)) == c <==> Records(last, c);
    RecordingsCount(before, c);
    if n < |Recordings(es, c)| {
      j := RecordingsAt(before, c, n);
      assert before[..j] == rs[..j];
    } else {
      j := |rs| - 1;
    }
  }

  lemma {:induction false} RecordingsCount(rs: seq<RawEntry>, c: Call)
    ensures |Recordings(RecordedIn(Tools, Listed(rs)), c)| == RecordedBefore(rs, c)
    decreases |rs|
  {
    if rs != [] {
      var before, last := rs[..|rs| - 1], rs[|rs| - 1];
      RecordingsCount(before, c);
      assert RecordedIn(Tools, Listed(rs)) == RecordedIn(Tools, Listed(before)) + [FromRaw(Tools, last)];
      RecordingsSnoc(RecordedIn(Tools, Listed(before)), FromRaw(Tools, last), c);
    }
  }

  /** Out of order: if the run's tool calls are a permutation of the recorded ones, the n-th of several equal calls
      meets the reply of the n-th recording with its name and arguments. */
  lemma RerunPermuted(b: Bundle, calls: seq<Call>, i: nat) returns (j: nat)
    requires b.tools.Listed? && Permutes(Recorded(b), calls) && i < |calls| && IsTool(calls[i])
    ensures j < |b.tools.entries| && Records(b.tools.entries[j], calls[i])
    ensures RecordedBefore(b.tools.entries[..j], calls[i]) == MadeBefore(calls[..i], calls[i])
    ensures Deliver(Run(Tape(Recorded(b), Recorded(b)), calls).1[i]) == Said(b.tools.entries[j])
  {
    var t, c := Tape(Recorded(b), Recorded(b)), calls[i];
    var out := Run(t, calls).1;
    EqualCallsKeepOrder(t, calls, c);
    ServedAsAt(calls, out, i);
    ToolRecordings(b, c);
    hide Run, Permutes, ServedAs, Recorded, Recordings, RecordedIn;
    j := RecordingsAt(b.tools.entries, c, MadeBefore(calls[..i], c));
  }

  lemma ToolRecordings(b: Bundle, c: Call)
    requires IsTool(c)
    ensures Recordings(Recorded(b), c) == Recordings(RecordedIn(Tools, b.tools), c)
  {
    RecordingsPrefix(RecordedIn(Tools, b.tools), RecordedIn(Llm, b.llm), c);
  }
}
