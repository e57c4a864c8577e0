/** The per-route, per-IP brake: a Redis counter that starts a 60 s window at its first hit. */
module RateLimit {
  import opened Prelude

  const WINDOW: real := 60.0

  /** A Redis integer key; `expires` is `None` when no EXPIRE has been set on it. */
  datatype Counter = Absent | Held(count: nat, expires: Option<real>)

  /** Where one call loses Redis: nowhere, before the INCR, between the INCR and its reply, between that and the
      EXPIRE a first hit sends, or between the EXPIRE and its reply. */
  datatype Link = Up | Down | LostReply | LostExpire | LostExpireReply

  function Current(c: Counter, now: real): Counter {
    if c.Held? && c.expires.Some? && c.expires.value <= now then Absent else c
  }

  function Incr(c: Counter, now: real): Counter {
    match Current(c, now)
    case Absent => Held(1, None)
    case Held(n, expires) => Held(n + 1, expires)
  }

  /** `hits`: the counter afterwards and the count reported, `None` when Redis failed. */
  function Hit(c: Counter, now: real, link: Link): (Counter, Option<nat>) {
    var c' := Incr(c, now);
    match link
    case Down => (c, None)
    case LostReply => (c', None)
    case Up => (if c'.count == 1 then Held(1, Some(now + WINDOW)) else c', Some(c'.count))
    case LostExpire => (c', if c'.count == 1 then None else Some(c'.count))
    case LostExpireReply =>
      (if c'.count == 1 then Held(1, Some(now + WINDOW)) else c', if c'.count == 1 then None else Some(c'.count))
  }

  /** `limit` refuses exactly a known count above the limit. */
  predicate Admits(n: Option<nat>, perMinute: nat) {
    n.None? || n.value <= perMinute
  }

  // ---------------------------------------------------------------- runs

  /** One request of a key: when it arrives, and how Redis behaves meanwhile. */
  datatype Req = Req(at: real, link: Link)

  predicate Sorted(rs: seq<Req>) {
    forall i, j :: 0 <= i <= j < |rs| ==> rs[i].at <= rs[j].at
  }

  function Last(rs: seq<Req>): Req
    requires rs != []
  {
    rs[|rs| - 1]
  }

  function Init(rs: seq<Req>): seq<Req>
    requires rs != []
  {
    rs[..|rs| - 1]
  }

  /** The counter after the requests `rs` of one key. */
  function After(rs: seq<Req>): Counter {
    if rs == [] then Absent else Hit(After(Init(rs)), Last(rs).at, Last(rs).link).0
  }

  /** Whether the last request of `rs` was let through. */
  predicate LastAdmitted(rs: seq<Req>, perMinute: nat)
    requires rs != []
  {
    Admits(Hit(After(Init(rs)), Last(rs).at, Last(rs).link).1, perMinute)
  }

  /** How many counted requests with arrival in [from, from + 60) were let through; a request that Redis never
      saw is let through without being counted. */
  function AdmittedFrom(rs: seq<Req>, perMinute: nat, from: real): nat {
    if rs == [] then 0
    else
      AdmittedFrom(Init(rs), perMinute, from) +
      if Last(rs).link != Down && from <= Last(rs).at < from + 60.0 && LastAdmitted(rs, perMinute) then 1 else 0
  }

  /** The last request of `rs` was counted beyond the limit and let through, the reply that said so being lost. */
  predicate Blind(rs: seq<Req>, perMinute: nat)
    requires rs != []
  {
    Last(rs).link == LostReply && Incr(After(Init(rs)), Last(rs).at).count > perMinute
  }

  /** How many requests with arrival in [from, from + 60) were. */
  function BlindFrom(rs: seq<Req>, perMinute: nat, from: real): nat {
    if rs == [] then 0
    else BlindFrom(Init(rs), perMinute, from) + if from <= Last(rs).at < from + 60.0 && Blind(rs, perMinute) then 1 else 0
  }

  /** How many counted requests arrived later than `cutoff`. */
  function CountedAfter(rs: seq<Req>, cutoff: real): nat {
    if rs == [] then 0
    else CountedAfter(Init(rs), cutoff) + if Last(rs).link != Down && cutoff < Last(rs).at then 1 else 0
  }

  /** The positions of those requests. */
  function LaterThan(rs: seq<Req>, cutoff: real): set<nat> {
    set i: nat | i < |rs| && rs[i].link != Down && cutoff < rs[i].at
  }

  lemma {:induction false} CountedAfterIs(rs: seq<Req>, cutoff: real)
    ensures CountedAfter(rs, cutoff) == |LaterThan(rs, cutoff)|
    decreases |rs|
  {
    if rs != [] {
      CountedAfterIs(Init(rs), cutoff);
      var n := |rs| - 1;
      var last := if Last(rs).link != Down && cutoff < Last(rs).at then {n} else {};
      assert LaterThan(rs, cutoff) == LaterThan(Init(rs), cutoff) + last;
    } else {
      assert LaterThan(rs, cutoff) == {};
    }
  }

  /** Whether the last request of `rs` started a new count. */
  predicate Opens(rs: seq<Req>)
    requires rs != []
  {
    Last(rs).link != Down && Current(After(Init(rs)), Last(rs).at).Absent?
  }

  /** When the present count was started. */
  function OpenedAt(rs: seq<Req>): real {
    if rs == [] then 0.0 else if Opens(rs) then Last(rs).at else OpenedAt(Init(rs))
  }

  /** A count was started by one of the requests, and if it expires it does so 60 s after that one. */
  ghost predicate Anchored(rs: seq<Req>) {
    After(rs).Held? ==>
      && rs != [] && After(rs).count >= 1 && OpenedAt(rs) <= Last(rs).at
      && (After(rs).expires.Some? ==> After(rs).expires.value == OpenedAt(rs) + 60.0)
  }

  lemma {:induction false} AlwaysAnchored(rs: seq<Req>)
    requires Sorted(rs)
    ensures Anchored(rs)
  {
    if rs != [] {
      AlwaysAnchored(Init(rs));
      if Init(rs) != [] { assert Last(Init(rs)).at <= Last(rs).at; }
    }
  }

  /** What an interval starting at `s` can hold, by where the present count was started: a count that began
      before `s` spent its first admission outside the interval. */
  ghost predicate Charged(rs: seq<Req>, perMinute: nat, s: real) {
    if After(rs).Absent? then AdmittedFrom(rs, perMinute, s) == 0
    else
      var anchor, n := OpenedAt(rs), Min(After(rs).count, perMinute);
      AdmittedFrom(rs, perMinute, s) - BlindFrom(rs, perMinute, s) <=
        if anchor < s then n - 1
        else if anchor < s + WINDOW then perMinute - 1 + n
        else 2 * perMinute - 1
  }

  lemma {:induction false} NoneYet(rs: seq<Req>, perMinute: nat, s: real)
    requires Sorted(rs) && rs != [] && Last(rs).at < s
    ensures AdmittedFrom(rs, perMinute, s) == 0
    decreases |rs|
  {
    if |rs| > 1 {
      assert Last(Init(rs)).at <= Last(rs).at;
      NoneYet(Init(rs), perMinute, s);
    }
  }

  lemma {:induction false} IntervalCharge(rs: seq<Req>, perMinute: nat, s: real)
    requires Sorted(rs) && perMinute >= 1
    ensures Charged(rs, perMinute, s)
    decreases |rs|
  {
    if rs != [] {
      AlwaysAnchored(rs);
      AlwaysAnchored(Init(rs));
      IntervalCharge(Init(rs), perMinute, s);
      if Last(rs).at < s { NoneYet(rs, perMinute, s); }
      if Init(rs) != [] { assert Last(Init(rs)).at <= Last(rs).at; }
    }
  }

  /** Wherever Redis is lost, any half-open 60 s interval admits at most 2L - 1 counted requests of one key, and
      those past the limit whose count was lost on its way back. */
  lemma SlidingBound(rs: seq<Req>, perMinute: nat, s: real)
    requires Sorted(rs) && perMinute >= 1
    ensures AdmittedFrom(rs, perMinute, s) <= 2 * perMinute - 1 + BlindFrom(rs, perMinute, s)
  {
    IntervalCharge(rs, perMinute, s);
  }

  /** A counted request is let through exactly when its count is within the limit or never came back. */
  lemma LetThroughExactly(rs: seq<Req>, perMinute: nat)
    requires rs != [] && perMinute >= 1 && Last(rs).link != Down
    ensures LastAdmitted(rs, perMinute) <==>
              Incr(After(Init(rs)), Last(rs).at).count <= perMinute || Blind(rs, perMinute)
  {
  }

  // ---------------------------------------------------------------- the bound is attained

  lemma InWindow(rs: seq<Req>, t: real, perMinute: nat, s: real)
    requires After(rs).Held? && After(rs).expires.Some? && 1 <= After(rs).count < perMinute
    requires s <= t < s + WINDOW && t < After(rs).expires.value
    ensures After(rs + [Req(t, Up)]) == After(rs).(count := After(rs).count + 1)
    ensures AdmittedFrom(rs + [Req(t, Up)], perMinute, s) == AdmittedFrom(rs, perMinute, s) + 1
    ensures BlindFrom(rs + [Req(t, Up)], perMinute, s) == BlindFrom(rs, perMinute, s)
  {
    assert Init(rs + [Req(t, Up)]) == rs;
  }

  lemma OpensWindow(rs: seq<Req>, t: real, perMinute: nat, s: real)
    requires Current(After(rs), t).Absent? && perMinute >= 1
    ensures After(rs + [Req(t, Up)]) == Held(1, Some(t + WINDOW))
    ensures AdmittedFrom(rs + [Req(t, Up)], perMinute, s) == AdmittedFrom(rs, perMinute, s) + if s <= t < s + WINDOW then 1 else 0
    ensures BlindFrom(rs + [Req(t, Up)], perMinute, s) == BlindFrom(rs, perMinute, s)
  {
    assert Init(rs + [Req(t, Up)]) == rs;
  }

  predicate SortedUpTo(rs: seq<Req>, t: real) { Sorted(rs) && (rs == [] || Last(rs).at <= t) }

  /** `n` more requests at time `t`, while a window is open and below its limit, are all admitted. */
  lemma {:induction false} Burst(rs: seq<Req>, t: real, n: nat, perMinute: nat, s: real) returns (r: seq<Req>)
    requires SortedUpTo(rs, t)
    requires After(rs).Held? && After(rs).expires.Some? && 1 <= After(rs).count && After(rs).count + n <= perMinute
    requires s <= t < s + WINDOW && t < After(rs).expires.value
    ensures SortedUpTo(r, t)
    ensures After(r) == After(rs).(count := After(rs).count + n)
    ensures AdmittedFrom(r, perMinute, s) == AdmittedFrom(rs, perMinute, s) + n
    ensures BlindFrom(r, perMinute, s) == BlindFrom(rs, perMinute, s)
    decreases n
  {
    hide After, AdmittedFrom, BlindFrom;
    r := rs;
    if n > 0 {
      r := Burst(rs, t, n - 1, perMinute, s);
      InWindow(r, t, perMinute, s);
      r := r + [Req(t, Up)];
    }
  }

  lemma PastLimit(rs: seq<Req>, t: real, perMinute: nat, s: real)
    requires After(rs).Held? && After(rs).expires.Some? && After(rs).count >= perMinute
    requires s <= t < s + WINDOW && t < After(rs).expires.value
    ensures After(rs + [Req(t, LostReply)]) == After(rs).(count := After(rs).count + 1)
    ensures AdmittedFrom(rs + [Req(t, LostReply)], perMinute, s) == AdmittedFrom(rs, perMinute, s) + 1
    ensures BlindFrom(rs + [Req(t, LostReply)], perMinute, s) == BlindFrom(rs, perMinute, s) + 1
  {
    assert Init(rs + [Req(t, LostReply)]) == rs;
  }

  /** `n` more requests at time `t`, in an open window that is full, all with their replies lost, are all admitted. */
  lemma {:induction false} BlindBurst(rs: seq<Req>, t: real, n: nat, perMinute: nat, s: real) returns (r: seq<Req>)
    requires SortedUpTo(rs, t)
    requires After(rs).Held? && After(rs).expires.Some? && After(rs).count >= perMinute
    requires s <= t < s + WINDOW && t < After(rs).expires.value
    ensures SortedUpTo(r, t)
    ensures After(r) == After(rs).(count := After(rs).count + n)
    ensures AdmittedFrom(r, perMinute, s) == AdmittedFrom(rs, perMinute, s) + n
    ensures BlindFrom(r, perMinute, s) == BlindFrom(rs, perMinute, s) + n
    decreases n
  {
    hide After, AdmittedFrom, BlindFrom;
    r := rs;
    if n > 0 {
      r := BlindBurst(rs, t, n - 1, perMinute, s);
      PastLimit(r, t, perMinute, s);
      r := r + [Req(t, LostReply)];
    }
  }

  /** The bound is attained, for every limit, interval and number of lost replies: one request, L - 1 more just
      before its window closes, L in the next window, and any number whose replies are lost. */
  lemma BoundAttained(perMinute: nat, s: real, lost: nat) returns (rs: seq<Req>)
    requires perMinute >= 1
    ensures Sorted(rs) && BlindFrom(rs, perMinute, s) == lost
    ensures AdmittedFrom(rs, perMinute, s) == 2 * perMinute - 1 + lost
  {
    OpensWindow([], s - 1.0, perMinute, s);
    rs := [] + [Req(s - 1.0, Up)];
    assert AdmittedFrom([], perMinute, s) == BlindFrom([], perMinute, s) == 0;
    hide After, AdmittedFrom, BlindFrom;
    rs := Burst(rs, s + 58.0, perMinute - 1, perMinute, s);
    OpensWindow(rs, s + 59.0, perMinute, s);
    rs := rs + [Req(s + 59.0, Up)];
    rs := Burst(rs, s + 59.0, perMinute - 1, perMinute, s);
    rs := BlindBurst(rs, s + 59.0, lost, perMinute, s);
  }

  // ---------------------------------------------------------------- refusals

  /** The count held now was started by request `i`, whose EXPIRE was never sent or lost, and has had no expiry
      since. */
  ghost predicate StuckSince(rs: seq<Req>, i: nat) {
    && i < |rs| && rs[i].link in {LostReply, LostExpire} && Opens(rs[..i + 1])
    && forall j :: i < j <= |rs| ==> After(rs[..j]).Held? && After(rs[..j]).expires.None?
  }

  /** How many of the requests Redis counted. */
  function Counted(rs: seq<Req>): nat {
    if rs == [] then 0 else Counted(Init(rs)) + if Last(rs).link != Down then 1 else 0
  }

  lemma {:induction false} CountPositive(rs: seq<Req>)
    ensures After(rs).Held? ==> After(rs).count >= 1
  {
    if rs != [] { CountPositive(Init(rs)); }
  }

  lemma StuckGrows(rs: seq<Req>, i: nat)
    requires rs != [] && StuckSince(Init(rs), i)
    ensures StuckSince(rs, i)
  {
    assert rs[..|rs|] == rs;
    assert Init(rs)[..|rs| - 1] == Init(rs);
    CountPositive(Init(rs));
    forall j | i < j <= |rs| ensures After(rs[..j]).Held? && After(rs[..j]).expires.None? {
      if j < |rs| { assert rs[..j] == Init(rs)[..j]; }
    }
    assert rs[..i + 1] == Init(rs)[..i + 1];
  }

  /** A count without an expiry was started by a request whose EXPIRE never got to Redis, and by nothing else. */
  lemma {:induction false} NoExpiryExactly(rs: seq<Req>)
    ensures (After(rs).Held? && After(rs).expires.None?) <==> exists i :: StuckSince(rs, i)
    decreases |rs|
  {
    if After(rs).Held? && After(rs).expires.None? {
      NoExpiryExactly(Init(rs));
      if Opens(rs) {
        assert rs[..|rs|] == rs;
        assert StuckSince(rs, |rs| - 1);
      } else {
        var i :| StuckSince(Init(rs), i);
        StuckGrows(rs, i);
      }
    }
    if i :| StuckSince(rs, i) { assert rs[..|rs|] == rs; }
  }

  lemma {:induction false} CountIsArrivals(rs: seq<Req>, cutoff: real)
    requires Sorted(rs) && After(rs).Held? && cutoff < OpenedAt(rs)
    ensures After(rs).count <= CountedAfter(rs, cutoff)
    decreases |rs|
  {
    var before := Init(rs);
    AlwaysAnchored(before);
    AlwaysAnchored(rs);
    if !Opens(rs) { CountIsArrivals(before, cutoff); }
  }

  /** In every run, a request is refused only when at least L counted requests of its key arrived in the 60 s
      before it, or the count it met has no expiry because the EXPIRE of its first hit never got to Redis. */
  lemma RefusedOnlyWhenBusy(rs: seq<Req>, perMinute: nat)
    requires Sorted(rs) && rs != [] && !LastAdmitted(rs, perMinute)
    ensures CountedAfter(Init(rs), Last(rs).at - 60.0) >= perMinute || exists i :: StuckSince(Init(rs), i)
  {
    var before := Init(rs);
    NoExpiryExactly(before);
    AlwaysAnchored(before);
    if After(before).Held? && After(before).expires.Some? && Last(rs).at < After(before).expires.value {
      CountIsArrivals(before, Last(rs).at - 60.0);
    }
  }

  lemma {:induction false} StuckCount(rs: seq<Req>, i: nat)
    requires StuckSince(rs, i)
    ensures After(rs) == Held(Counted(rs[i..]), None)
    decreases |rs|
  {
    assert rs[..|rs|] == rs;
    if i == |rs| - 1 {
      assert rs[i..] == [Last(rs)] && Init([Last(rs)]) == [];
    } else {
      var before := Init(rs);
      assert before[..|rs| - 1] == before;
      assert rs[..i + 1] == before[..i + 1];
      assert forall j :: i < j <= |before| ==> before[..j] == rs[..j];
      StuckCount(before, i);
      assert Init(rs[i..]) == before[i..];
      assert After(before).expires.None?;
    }
  }

  /** The other half: once the EXPIRE of a first hit is lost, a request is refused exactly when L were counted since
      that hit, however long ago they were, and the count gets back to the caller. */
  lemma LostExpireLocksOut(rs: seq<Req>, i: nat, r: Req, perMinute: nat)
    requires StuckSince(rs, i)
    ensures !LastAdmitted(rs + [r], perMinute) <==> Counted(rs[i..]) >= perMinute && r.link !in {Down, LostReply}
  {
    StuckCount(rs, i);
    assert Init(rs + [r]) == rs;
    assert rs[..i + 1][i] == rs[i];
    CountsItself(rs[i..]);
  }

  lemma CountsItself(rs: seq<Req>)
    requires rs != []
    ensures rs[0].link != Down ==> Counted(rs) >= 1
    decreases |rs|
  {
    if |rs| > 1 { CountsItself(Init(rs)); }
  }

  // ---------------------------------------------------------------- the shared counters

  /** One counter per (route, client address). */
  datatype Bucket = Bucket(route: string, ip: string)

  class Redis {
    var counters: map<Bucket, Counter>

    function Of(b: Bucket): Counter
      reads this
    {
      if b in counters then counters[b] else Absent
    }

    method IncrKey(b: Bucket, now: real) returns (n: nat)
      modifies this
      ensures counters == old(counters)[b := Incr(old(Of(b)), now)]
      ensures n == Of(b).count
    {
      var c := Current(Of(b), now);
      n := if c.Absent? then 1 else c.count + 1;
      counters := counters[b := Held(n, if c.Absent? then None else c.expires)];
    }

    method Expire(b: Bucket, at: real)
      requires b in counters && counters[b].Held?
      modifies this
      ensures counters == old(counters)[b := old(counters[b]).(expires := Some(at))]
    {
      counters := counters[b := counters[b].(expires := Some(at))];
    }

    method Hits(route: string, ip: string, now: real, link: Link) returns (n: Option<nat>)
      modifies this
      ensures (Of(Bucket(route, ip)), n) == Hit(old(Of(Bucket(route, ip))), now, link)
      ensures forall b :: b != Bucket(route, ip) ==> Of(b) == old(Of(b))
      ensures var before := Current(old(Of(Bucket(route, ip))), now);
              var earlier := if before.Held? then before.count else 0;
              && (n.Some? <==> link == Up || (link in {LostExpire, LostExpireReply} && earlier > 0))
              && (n.Some? ==> n.value == earlier + 1)
    {
      var b := Bucket(route, ip);
      if link == Down {
        return None;
      }
      var count := IncrKey(b, now);
      if link == LostReply {
        return None;
      }
      if count == 1 {
        if link == LostExpire {
          return None;
        }
        Expire(b, now + WINDOW);
        if link == LostExpireReply {
          return None;
        }
      }
      return Some(count);
    }

    /** The dependency behind the route: `ok` is false when the request is answered with 429. */
    method Limit(route: string, ip: string, perMinute: nat, now: real, link: Link) returns (ok: bool)
      modifies this
      ensures ok == Admits(Hit(old(Of(Bucket(route, ip))), now, link).1, perMinute)
      ensures Of(Bucket(route, ip)) == Hit(old(Of(Bucket(route, ip))), now, link).0
      ensures forall b :: b != Bucket(route, ip) ==> Of(b) == old(Of(b))
      ensures link in {Down, LostReply} ==> ok
    {
      var n := Hits(route, ip, now, link);
      ok := !(n.Some? && n.value > perMinute);
    }
  }
}
