/** Which agents the command gates: the names on the command line, comma lists split up, or every agent with an
    enabled scenario. */
module Agents {
  import opened Prelude

  // ---------------------------------------------------------------- which agents

  /** Names in order of first appearance. */
  function Dedup(names: seq<string>): seq<string> {
    if names == [] then []
    else
      var r := Dedup(names[..|names| - 1]);
      if names[|names| - 1] in r then r else r + [names[|names| - 1]]
  }

  lemma {:induction false} DedupKeepsAll(names: seq<string>, n: string)
    ensures n in Dedup(names) <==> n in names
  {
    if names != [] {
      DedupKeepsAll(names[..|names| - 1], n);
      DedupKeepsAll(names[..|names| - 1], names[|names| - 1]);
      assert names == names[..|names| - 1] + [names[|names| - 1]];
    }
  }

  /** No name twice, and each where it first appeared: dropping a suffix of the input drops a suffix. */
  lemma {:induction false} DedupDistinct(names: seq<string>)
    ensures forall i, j :: 0 <= i < j < |Dedup(names)| ==> Dedup(names)[i] != Dedup(names)[j]
    ensures forall k :: 0 <= k <= |names| ==> Dedup(names[..k]) <= Dedup(names)
  {
    if names != [] {
      var before := names[..|names| - 1];
      DedupDistinct(before);
      forall k | 0 <= k <= |names| ensures Dedup(names[..k]) <= Dedup(names) {
        if k < |names| {
          assert before[..k] == names[..k];
        } else {
          assert names[..k] == names;
        }
      }
    }
  }

  predicate IsSpace(c: char) { c == ' ' || '\t' <= c <= '\r' }

  /** `str.strip()`. */
  function Strip(s: string): (r: string)
    ensures r != "" ==> !IsSpace(r[0]) && !IsSpace(r[|r| - 1])
    ensures |r| <= |s|
    decreases |s|
  {
    if s == "" then s
    else if IsSpace(s[0]) then Strip(s[1..])
    else if IsSpace(s[|s| - 1]) then Strip(s[..|s| - 1])
    else s
  }

  /** Stripping takes white space off both ends and nothing else. */
  lemma {:induction false} StripExact(s: string) returns (i: nat, j: nat)
    ensures i <= j <= |s| && Strip(s) == s[i..j]
    ensures forall k :: 0 <= k < i || j <= k < |s| ==> IsSpace(s[k])
    decreases |s|
  {
    i, j := 0, |s|;
    if s != "" && IsSpace(s[0]) {
      i, j := StripExact(s[1..]);
      assert s[1..][i..j] == s[i + 1..j + 1];
      forall k | 0 <= k < i + 1 || j + 1 <= k < |s| ensures IsSpace(s[k]) {
        if k > 0 { assert s[k] == s[1..][k - 1]; }
      }
      i, j := i + 1, j + 1;
    } else if s != "" && IsSpace(s[|s| - 1]) {
      i, j := StripExact(s[..|s| - 1]);
    }
  }

  /** `s.split(",")`. */
  function Split(s: string): (parts: seq<string>)
    ensures parts != []
    ensures Join(parts) == s
    ensures forall p <- parts :: ',' !in p
  {
    if s == "" then [""]
    else
      var rest := Split(s[1..]);
      if s[0] == ',' then [""] + rest else [[s[0]] + rest[0]] + rest[1..]
  }

  /** The inverse of `Split`: the parts separated by commas. */
  function Join(parts: seq<string>): string
    requires parts != []
  {
    if |parts| == 1 then parts[0] else parts[0] + "," + Join(parts[1..])
  }

  /** The usable names in one command-line chunk. */
  function NamesIn(chunk: string): seq<string> {
    Kept(Split(chunk))
  }

  function Kept(parts: seq<string>): (r: seq<string>)
    ensures forall n <- r :: n != ""
  {
    if parts == [] then []
    else
      var last := Strip(parts[|parts| - 1]);
      Kept(parts[..|parts| - 1]) + if last != "" then [last] else []
  }

  function AllNames(chunks: seq<string>): seq<string> {
    if chunks == [] then [] else AllNames(chunks[..|chunks| - 1]) + NamesIn(chunks[|chunks| - 1])
  }

  lemma DedupSnoc(names: seq<string>, n: string)
    ensures Dedup(names + [n]) == if n in Dedup(names) then Dedup(names) else Dedup(names) + [n]
  {
    assert (names + [n])[..|names|] == names;
  }

  lemma KeptSnoc(parts: seq<string>, j: nat)
    requires j < |parts|
    ensures Kept(parts[..j + 1]) == if Strip(parts[j]) != "" then Kept(parts[..j]) + [Strip(parts[j])] else Kept(parts[..j])
  {
    assert parts[..j + 1][..j] == parts[..j];
  }

  lemma AllNamesSnoc(chunks: seq<string>, i: nat)
    requires i < |chunks|
    ensures AllNames(chunks[..i + 1]) == AllNames(chunks[..i]) + NamesIn(chunks[i])
  {
    assert chunks[..i + 1][..i] == chunks[..i];
  }

  lemma AddName(done: seq<string>, parts: seq<string>, j: nat)
    requires j < |parts|
    ensures var known, name := Dedup(done + Kept(parts[..j])), Strip(parts[j]);
            Dedup(done + Kept(parts[..j + 1])) == if name != "" && name !in known then known + [name] else known
  {
    var name := Strip(parts[j]);
    KeptSnoc(parts, j);
    hide Dedup, Kept, Strip;
    if name != "" {
      assert done + Kept(parts[..j + 1]) == done + Kept(parts[..j]) + [name];
      DedupSnoc(done + Kept(parts[..j]), name);
    }
  }

  /** The inner loop of `agent_list`: append the new names of one chunk. */
  method AddChunk(seen: seq<string>, ghost done: seq<string>, chunk: string) returns (out: seq<string>)
    requires seen == Dedup(done)
    ensures out == Dedup(done + NamesIn(chunk))
  {
    var parts := Split(chunk);
    assert done + Kept(parts[..0]) == done;
    hide Dedup, Kept, Strip, Split;
    out := seen;
    for j := 0 to |parts|
      invariant out == Dedup(done + Kept(parts[..j]))
    {
      var name := Strip(parts[j]);
      AddName(done, parts, j);
      if name != "" && name !in out {
        out := out + [name];
      }
    }
    assert parts[..|parts|] == parts;
  }

  /** The raw arguments: the environment speaks only when nothing is named. */
  function Given(positional: seq<string>, agent: Option<string>, env: string): seq<string> {
    if agent.Some? && agent.value != "" then positional + [agent.value]
    else if positional == [] then [env]
    else positional
  }

  // ---------------------------------------------------------------- what is named, told of the command line

  /** A stretch of the argument between commas. */
  predicate IsPart(chunk: string, i: nat, j: nat) {
    && i <= j <= |chunk| && (i == 0 || chunk[i - 1] == ',') && (j == |chunk| || chunk[j] == ',')
    && forall k :: i <= k < j ==> chunk[k] != ','
  }

  /** How many parts come before a position. */
  function Commas(s: string): nat {
    if s == "" then 0 else (if s[0] == ',' then 1 else 0) + Commas(s[1..])
  }

  const WHITE := {' ', '\t', '\n', '\U{0B}', '\U{0C}', '\r'}

  /** `name` is `s` without the white space at its ends. */
  ghost predicate StripsTo(s: string, name: string) {
    && (name != "" ==> name[0] !in WHITE && name[|name| - 1] !in WHITE)
    && exists a: nat, b: nat :: Trims(s, a, b, name)
  }

  ghost predicate Trims(s: string, a: nat, b: nat, name: string) {
    a <= b <= |s| && s[a..b] == name && forall k :: 0 <= k < a || b <= k < |s| ==> s[k] in WHITE
  }

  /** The part numbered `k` of this argument is this name. */
  ghost predicate NamesAt(chunk: string, k: nat, name: string) {
    name != "" && exists i: nat, j: nat :: IsPart(chunk, i, j) && Commas(chunk[..i]) == k && StripsTo(chunk[i..j], name)
  }

  /** The arguments that speak: the positional ones, `--agent` unless empty, and the environment if there is neither. */
  predicate Speaks(positional: seq<string>, agent: Option<string>, env: string, chunk: string) {
    || chunk in positional
    || (agent == Some(chunk) && chunk != "")
    || (chunk == env && positional == [] && agent in {None, Some("")})
  }

  /** This argument names it. */
  ghost predicate Says(chunk: string, name: string) { exists k: nat :: NamesAt(chunk, k, name) }

  /** Somebody asked for this agent. */
  ghost predicate Wanted(positional: seq<string>, agent: Option<string>, env: string, name: string) {
    exists chunk :: Speaks(positional, agent, env, chunk) && Says(chunk, name)
  }

  lemma {:induction false} StripIs(s: string, name: string)
    ensures Strip(s) == name <==> StripsTo(s, name)
  {
    var i, j := StripExact(s);
    forall c: char ensures IsSpace(c) <==> c in WHITE {}
    assert Trims(s, i, j, Strip(s));
    if StripsTo(s, name) {
      var a: nat, b: nat :| Trims(s, a, b, name);
      TrimsOnce(s, i, j, Strip(s), a, b, name);
    }
  }

  lemma TrimsOnce(s: string, i: nat, j: nat, m: string, a: nat, b: nat, n: string)
    requires Trims(s, i, j, m) && Trims(s, a, b, n)
    requires m != "" ==> m[0] !in WHITE && m[|m| - 1] !in WHITE
    requires n != "" ==> n[0] !in WHITE && n[|n| - 1] !in WHITE
    ensures m == n
  {
    if m != "" { assert s[i] == m[0] && s[j - 1] == m[|m| - 1]; }
    if n != "" { assert s[a] == n[0] && s[b - 1] == n[|n| - 1]; }
  }

  lemma {:induction false} CommasSnoc(s: string, i: nat)
    requires i < |s|
    ensures Commas(s[..i + 1]) == Commas(s[..i]) + if s[i] == ',' then 1 else 0
  {
    if i > 0 {
      CommasSnoc(s[1..], i - 1);
      assert s[..i + 1][1..] == s[1..][..i] && s[..i][1..] == s[1..][..i - 1];
    }
  }

  lemma PartTail(s: string, i: nat, j: nat)
    requires s != "" && i > 0 && IsPart(s, i, j)
    ensures IsPart(s[1..], i - 1, j - 1) && s[1..][i - 1..j - 1] == s[i..j]
    ensures Commas(s[..i]) == Commas(s[1..][..i - 1]) + if s[0] == ',' then 1 else 0
    ensures s[0] != ',' ==> Commas(s[1..][..i - 1]) > 0
  {
    assert s[..i][1..] == s[1..][..i - 1];
    assert forall k :: i - 1 <= k < j - 1 ==> s[1..][k] == s[k + 1];
    if s[0] != ',' { SomeComma(s[1..], i - 1); }
  }

  lemma PartHead(s: string, j: nat)
    requires s != "" && s[0] != ',' && IsPart(s, 0, j)
    ensures j > 0 && IsPart(s[1..], 0, j - 1) && s[..j] == [s[0]] + s[1..][..j - 1]
  {
    assert forall k :: 0 <= k < j - 1 ==> s[1..][k] == s[k + 1];
  }

  /** `split(",")` cuts at every comma: its parts are the stretches between commas, in order. */
  lemma {:induction false} SplitAt(s: string, i: nat, j: nat)
    requires IsPart(s, i, j)
    ensures Commas(s[..i]) < |Split(s)| && Split(s)[Commas(s[..i])] == s[i..j]
  {
    if s != "" {
      var rest := Split(s[1..]);
      assert Split(s) == if s[0] == ',' then [""] + rest else [[s[0]] + rest[0]] + rest[1..];
      if i > 0 {
        PartTail(s, i, j);
        hide IsPart, Commas, Split;
        SplitAt(s[1..], i - 1, j - 1);
      } else if s[0] != ',' {
        PartHead(s, j);
        SplitAt(s[1..], 0, j - 1);
      }
    }
  }

  lemma {:induction false} SomeComma(s: string, i: nat)
    requires 0 < i <= |s| && s[i - 1] == ','
    ensures Commas(s[..i]) > 0
  {
    CommasSnoc(s, i - 1);
  }

  lemma FirstPart(s: string) returns (j: nat)
    ensures IsPart(s, 0, j) && Split(s)[0] == s[..j]
  {
    j := 0;
    while j < |s| && s[j] != ','
      invariant j <= |s| && forall l :: 0 <= l < j ==> s[l] != ','
    {
      j := j + 1;
    }
    SplitAt(s, 0, j);
  }

  lemma PartShift(s: string, i: nat, j: nat)
    requires s != "" && IsPart(s[1..], i, j) && (i > 0 || s[0] == ',')
    ensures IsPart(s, i + 1, j + 1) && s[i + 1..j + 1] == s[1..][i..j]
    ensures Commas(s[..i + 1]) == Commas(s[1..][..i]) + if s[0] == ',' then 1 else 0
  {
    assert s[..i + 1][1..] == s[1..][..i];
    assert forall l :: i + 1 <= l < j + 1 ==> s[l] == s[1..][l - 1];
  }

  lemma {:induction false} PartAt(s: string, k: nat) returns (i: nat, j: nat)
    requires k < |Split(s)|
    ensures IsPart(s, i, j) && Commas(s[..i]) == k && Split(s)[k] == s[i..j]
    decreases |s|
  {
    if k == 0 {
      i := 0;
      j := FirstPart(s);
    } else {
      assert Split(s)[k] == Split(s[1..])[if s[0] == ',' then k - 1 else k];
      i, j := PartAt(s[1..], if s[0] == ',' then k - 1 else k);
      hide IsPart, Split, Commas;
      NotFirst(s[1..], i);
      PartShift(s, i, j);
      i, j := i + 1, j + 1;
    }
  }

  lemma NotFirst(s: string, i: nat)
    requires i <= |s|
    ensures Commas(s[..i]) > 0 ==> i > 0
  {
  }

  lemma {:induction false} KeptExactly(parts: seq<string>, name: string)
    ensures name in Kept(parts) <==> name != "" && exists k :: 0 <= k < |parts| && Strip(parts[k]) == name
  {
    if parts != [] {
      KeptExactly(parts[..|parts| - 1], name);
    }
  }

  /** The names among the first `n` parts of one argument. */
  lemma PartsNamed(chunk: string, n: nat, name: string)
    requires n <= |Split(chunk)|
    ensures name in Kept(Split(chunk)[..n]) <==> exists k: nat :: k < n && NamesAt(chunk, k, name)
  {
    var parts := Split(chunk);
    KeptExactly(parts[..n], name);
    hide Kept, Split, Strip;
    if k :| 0 <= k < n && Strip(parts[k]) == name && name != "" {
      var i, j := PartAt(chunk, k);
      StripIs(parts[k], name);
      assert NamesAt(chunk, k, name);
    }
    if k: nat :| k < n && NamesAt(chunk, k, name) {
      var i: nat, j: nat :| IsPart(chunk, i, j) && Commas(chunk[..i]) == k && StripsTo(chunk[i..j], name);
      SplitAt(chunk, i, j);
      StripIs(chunk[i..j], name);
      assert parts[..n][k] == parts[k];
    }
  }

  /** One of the first `c` arguments names it, or one of the first `n` parts of the next. */
  ghost predicate NamedBefore(raw: seq<string>, c: nat, n: nat, name: string)
    requires c < |raw|
  {
    (exists chunk <- raw[..c] :: Says(chunk, name)) || exists k: nat :: k < n && NamesAt(raw[c], k, name)
  }

  lemma PartCount(chunk: string, k: nat, name: string)
    requires NamesAt(chunk, k, name)
    ensures k < |Split(chunk)|
  {
    var i: nat, j: nat :| IsPart(chunk, i, j) && Commas(chunk[..i]) == k && StripsTo(chunk[i..j], name);
    SplitAt(chunk, i, j);
  }

  lemma LastNamed(chunk: string, name: string)
    ensures name in NamesIn(chunk) <==> Says(chunk, name)
  {
    PartsNamed(chunk, |Split(chunk)|, name);
    assert Split(chunk)[..|Split(chunk)|] == Split(chunk);
    hide NamesAt, Split, Kept;
    if k: nat :| NamesAt(chunk, k, name) { PartCount(chunk, k, name); }
  }

  lemma {:induction false} AllNamesHold(raw: seq<string>, name: string)
    ensures name in AllNames(raw) <==> exists chunk <- raw :: name in NamesIn(chunk)
  {
    hide NamesIn;
    if raw != [] {
      var before, last := raw[..|raw| - 1], raw[|raw| - 1];
      AllNamesHold(before, name);
      assert raw == before + [last];
    }
  }

  lemma AllNamed(raw: seq<string>, name: string)
    ensures name in AllNames(raw) <==> exists chunk <- raw :: Says(chunk, name)
  {
    AllNamesHold(raw, name);
    forall chunk ensures name in NamesIn(chunk) <==> Says(chunk, name) { LastNamed(chunk, name); }
  }

  /** The names gated are exactly those asked for. */
  lemma WantedExactly(positional: seq<string>, agent: Option<string>, env: string, name: string)
    ensures name in Dedup(AllNames(Given(positional, agent, env))) <==> Wanted(positional, agent, env, name)
  {
    var raw := Given(positional, agent, env);
    DedupKeepsAll(AllNames(raw), name);
    AllNamed(raw, name);
    forall chunk ensures chunk in raw <==> Speaks(positional, agent, env, chunk) {}
    hide Dedup, AllNames, Says, Speaks;
  }

  /** ... in the order of the command line: the positional names before `--agent`, and those of one argument from left to
      right. Cut the command line anywhere; what comes before gives the first names of the result. */
  lemma InGivenOrder(positional: seq<string>, agent: Option<string>, env: string, c: nat, n: nat) returns (m: nat)
    requires c < |Given(positional, agent, env)| && n <= |Split(Given(positional, agent, env)[c])|
    ensures positional <= Given(positional, agent, env)
    ensures m <= |Dedup(AllNames(Given(positional, agent, env)))|
    ensures forall name :: name in Dedup(AllNames(Given(positional, agent, env)))[..m] <==>
              NamedBefore(Given(positional, agent, env), c, n, name)
  {
    var raw := Given(positional, agent, env);
    var early := AllNames(raw[..c]) + Kept(Split(raw[c])[..n]);
    var k := EarlyPrefix(raw, c, n);
    DedupDistinct(AllNames(raw));
    m := |Dedup(early)|;
    forall name ensures name in Dedup(early) <==> NamedBefore(raw, c, n, name) {
      DedupKeepsAll(early, name);
      NamedEarly(raw, c, n, name);
    }
  }

  lemma {:induction false} KeptPrefix(parts: seq<string>, n: nat)
    requires n <= |parts|
    ensures Kept(parts[..n]) <= Kept(parts)
  {
    if n < |parts| {
      KeptPrefix(parts[..|parts| - 1], n);
      assert parts[..|parts| - 1][..n] == parts[..n];
    } else {
      assert parts[..n] == parts;
    }
  }

  lemma {:induction false} AllNamesPrefix(raw: seq<string>, c: nat)
    requires c <= |raw|
    ensures AllNames(raw[..c]) <= AllNames(raw)
  {
    if c < |raw| {
      AllNamesPrefix(raw[..|raw| - 1], c);
      assert raw[..|raw| - 1][..c] == raw[..c];
    } else {
      assert raw[..c] == raw;
    }
  }

  lemma EarlyPrefix(raw: seq<string>, c: nat, n: nat) returns (k: nat)
    requires c < |raw| && n <= |Split(raw[c])|
    ensures k <= |AllNames(raw)| && AllNames(raw)[..k] == AllNames(raw[..c]) + Kept(Split(raw[c])[..n])
  {
    AllNamesPrefix(raw, c + 1);
    AllNamesSnoc(raw, c);
    KeptPrefix(Split(raw[c]), n);
    k := |AllNames(raw[..c]) + Kept(Split(raw[c])[..n])|;
  }

  lemma NamedEarly(raw: seq<string>, c: nat, n: nat, name: string)
    requires c < |raw| && n <= |Split(raw[c])|
    ensures name in AllNames(raw[..c]) + Kept(Split(raw[c])[..n]) <==> NamedBefore(raw, c, n, name)
  {
    AllNamed(raw[..c], name);
    PartsNamed(raw[c], n, name);
    hide AllNames, Kept, Split, NamesAt, Says;
  }

  /** `agent_list`: positional names, then `--agent`, else the environment; comma lists split up. */
  method AgentList(positional: seq<string>, agent: Option<string>, env: string) returns (out: seq<string>)
    ensures out == Dedup(AllNames(Given(positional, agent, env)))
    ensures forall name :: name in out <==> Wanted(positional, agent, env, name)
  {
    forall name ensures name in Dedup(AllNames(Given(positional, agent, env))) <==> Wanted(positional, agent, env, name) {
      WantedExactly(positional, agent, env, name);
    }
    hide Wanted;
    var raw := positional;
    if agent.Some? && agent.value != "" {
      raw := raw + [agent.value];
    }
    if raw == [] {
      raw := [env];
    }
    assert Dedup(AllNames([])) == [];
    hide Dedup, AllNames, NamesIn;
    out := [];
    for i := 0 to |raw|
      invariant out == Dedup(AllNames(raw[..i]))
    {
      AllNamesSnoc(raw, i);
      out := AddChunk(out, AllNames(raw[..i]), raw[i]);
    }
    assert raw[..|raw|] == raw;
  }

  datatype Scenario = Scenario(agent: string, agentId: string, enabled: bool)

  function ScenarioAgent(s: Scenario): string {
    if s.agent != "" then s.agent else s.agentId
  }

  function EnabledAgents(scenarios: seq<Scenario>): (r: seq<string>)
    ensures forall n :: n in r <==> n != "" && exists s <- scenarios :: s.enabled && ScenarioAgent(s) == n
  {
    if scenarios == [] then []
    else
      var before, last := scenarios[..|scenarios| - 1], scenarios[|scenarios| - 1];
      assert scenarios == before + [last];
      EnabledAgents(before) + if last.enabled && ScenarioAgent(last) != "" then [ScenarioAgent(last)] else []
  }

  lemma EnabledSnoc(scenarios: seq<Scenario>, i: nat)
    requires i < |scenarios|
    ensures var name := ScenarioAgent(scenarios[i]);
            EnabledAgents(scenarios[..i + 1]) ==
              if scenarios[i].enabled && name != "" then EnabledAgents(scenarios[..i]) + [name] else EnabledAgents(scenarios[..i])
  {
    assert scenarios[..i + 1][..i] == scenarios[..i];
  }

  /** Some enabled scenario is this agent's, by its name, or by its id if it has no name. */
  predicate Enabled(scenarios: seq<Scenario>, name: string) {
    name != "" && exists s <- scenarios :: s.enabled && (s.agent == name || (s.agent == "" && s.agentId == name))
  }

  /** `discover_agents`: every agent with an enabled scenario, once. */
  method DiscoverAgents(scenarios: seq<Scenario>) returns (out: seq<string>)
    ensures out == Dedup(EnabledAgents(scenarios))
    ensures forall name :: name in out <==> Enabled(scenarios, name)
  {
    forall name ensures name in Dedup(EnabledAgents(scenarios)) <==> Enabled(scenarios, name) {
      DedupKeepsAll(EnabledAgents(scenarios), name);
    }
    assert Dedup(EnabledAgents([])) == [];
    hide Dedup, EnabledAgents;
    out := [];
    for i := 0 to |scenarios|
      invariant out == Dedup(EnabledAgents(scenarios[..i]))
    {
      var name := ScenarioAgent(scenarios[i]);
      EnabledSnoc(scenarios, i);
      DedupSnoc(EnabledAgents(scenarios[..i]), name);
      if scenarios[i].enabled && name != "" && name !in out {
        out := out + [name];
      }
    }
    assert scenarios[..|scenarios|] == scenarios;
  }
}
