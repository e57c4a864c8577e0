/** The drop-in clients record a provider's reply as JSON; replay rebuilds a reply from that JSON. */
module Providers {
  import opened Prelude

  /** The JSON printer and parser, assumed inverse on the values the SDK prints. */
  datatype Codec = Codec(dumps: Json -> string, loads: string -> Option<Json>)

  ghost predicate Lawful(k: Codec) {
    forall j :: k.loads(k.dumps(j)) == Some(j)
  }

  function GetOr(j: Json, k: string, default: Json): Json {
    if j.Obj? && k in j.fields then j.fields[k] else default
  }

  function Items(j: Json): seq<Json> {
    if j.Arr? then j.items else []
  }

  /** `_maybe_json`. */
  function MaybeJson(k: Codec, v: Json): Json {
    if v.Str? && k.loads(v.s).Some? then k.loads(v.s).value else v
  }

  /** `_assistant_message`: the message dictionary inside a recorded output, in any recorded shape. */
  function AssistantMessage(k: Codec, output: Json): (m: Json)
    ensures m.Obj?
  {
    if output.Str? && k.loads(output.s).None? then Obj(map["content" := output])
    else
      var data := if output.Str? then k.loads(output.s).value else output;
      var one := if data.Arr? then LastObj(data.items) else data;
      if one.Obj? then (if one.Get("message").Obj? then one.Get("message") else one)
      else Obj(map["content" := one])
  }

  /** The last dictionary of a message list, or an empty one. */
  function LastObj(items: seq<Json>): (m: Json)
    ensures m.Obj?
    ensures (exists j <- items :: j.Obj?) ==> m in items
  {
    if items == [] then Obj(map[])
    else if items[|items| - 1].Obj? then items[|items| - 1]
    else LastObj(items[..|items| - 1])
  }

  /** A printed message reads the same as the message itself; the last message of a list speaks. */
  lemma AnyShape(k: Codec, m: Json, earlier: seq<Json>)
    requires Lawful(k) && m.Obj? && !m.Get("message").Obj?
    ensures AssistantMessage(k, m) == m
    ensures AssistantMessage(k, Str(k.dumps(m))) == m
    ensures AssistantMessage(k, Arr(earlier + [m])) == m
    ensures AssistantMessage(k, Str(k.dumps(Arr(earlier + [m])))) == m
    ensures AssistantMessage(k, Obj(map["message" := m])) == m
  {
    assert k.loads(k.dumps(m)) == Some(m);
    assert k.loads(k.dumps(Arr(earlier + [m]))) == Some(Arr(earlier + [m]));
  }

  /** What is no message at all is the content of one: plain text, and any other value that is neither a dictionary
      nor a list; a list without a dictionary is an empty message. */
  lemma NoMessage(k: Codec, output: Json)
    ensures output.Str? && k.loads(output.s).None? ==> AssistantMessage(k, output).Get("content") == output
    ensures !output.Str? && !output.Obj? && !output.Arr? ==> AssistantMessage(k, output).Get("content") == output
    ensures output.Arr? && (forall j <- output.items :: !j.Obj?) ==> AssistantMessage(k, output) == Obj(map[])
    ensures forall key :: key != "content" && !output.Obj? && !output.Arr? && (output.Str? ==> k.loads(output.s).None?) ==>
              AssistantMessage(k, output).Get(key) == Null
  {
    if output.Arr? && forall j <- output.items :: !j.Obj? { NoDictionary(output.items); }
  }

  lemma {:induction false} NoDictionary(items: seq<Json>)
    requires forall j <- items :: !j.Obj?
    ensures LastObj(items) == Obj(map[])
  {
    if items != [] { NoDictionary(items[..|items| - 1]); }
  }

  // ---------------------------------------------------------------- Anthropic

  /** A content block of a provider reply; `Other` is any kind that is neither text nor tool_use. */
  datatype Block =
    | Text(text: string)
    | ToolUse(id: string, name: string, input: Json)
    | Other(kind: string)

  predicate WellFormed(b: Block) {
    b.Other? ==> b.kind != "text" && b.kind != "tool_use"
  }

  datatype Message = Message(content: seq<Block>, stopReason: string)

  /** A rebuilt block, with whatever JSON the recording held in each field. */
  datatype Rebuilt = RText(text: Json) | RToolUse(id: Json, name: Json, input: Json)

  datatype Reply = Reply(content: seq<Rebuilt>, stopReason: Json)

  function BlockJson(b: Block): Json {
    match b
    case Text(t) => Obj(map["type" := Str("text"), "text" := Str(t)])
    case ToolUse(id, name, input) => Obj(map["type" := Str("tool_use"), "id" := Str(id), "name" := Str(name), "input" := input])
    case Other(kind) => Obj(map["type" := Str(kind)])
  }

  function BlocksJson(bs: seq<Block>): (js: seq<Json>)
    ensures |js| == |bs|
    ensures forall i :: 0 <= i < |bs| ==> js[i] == BlockJson(bs[i])
  {
    seq(|bs|, i requires 0 <= i < |bs| => BlockJson(bs[i]))
  }

  function ToolNames(bs: seq<Block>): seq<string> {
    if bs == [] then []
    else ToolNames(bs[..|bs| - 1]) + if bs[|bs| - 1].ToolUse? then [bs[|bs| - 1].name] else []
  }

  function CaptureJson(m: Message): Json {
    var base := map["role" := Str("assistant"), "content" := Arr(BlocksJson(m.content))];
    Obj(if m.stopReason != "" then base["stop_reason" := Str(m.stopReason)] else base)
  }

  /** A recorded block tells its kind, and a text or a tool use all the provider said. */
  predicate Tells(j: Json, b: Block) {
    && j.Obj?
    && j.Get("type") == Str(match b case Text(_) => "text" case ToolUse(_, _, _) => "tool_use" case Other(kind) => kind)
    && (b.Text? ==> j.fields.Keys == {"type", "text"} && j.Get("text") == Str(b.text))
    && (b.ToolUse? ==>
          && j.fields.Keys == {"type", "id", "name", "input"}
          && j.Get("id") == Str(b.id) && j.Get("name") == Str(b.name) && j.Get("input") == b.input)
    && (b.Other? ==> j.fields.Keys == {"type"})
  }

  /** The recorded JSON is an assistant's message with these blocks in order, and the stop reason if there is one. */
  predicate TellsMessage(j: Json, m: Message) {
    && j.Obj? && j.Get("role") == Str("assistant")
    && j.fields.Keys == {"role", "content"} + (if m.stopReason == "" then {} else {"stop_reason"})
    && (m.stopReason != "" ==> j.Get("stop_reason") == Str(m.stopReason))
    && j.Get("content").Arr? && |j.Get("content").items| == |m.content|
    && forall i :: 0 <= i < |m.content| ==> Tells(j.Get("content").items[i], m.content[i])
  }

  lemma CaptureTells(m: Message)
    ensures TellsMessage(CaptureJson(m), m)
  {
    forall b: Block ensures Tells(BlockJson(b), b) { BlockTells(b); }
    hide Tells, BlockJson;
  }

  lemma BlockTells(b: Block)
    ensures Tells(BlockJson(b), b)
  {
  }

  function ToolUses(bs: seq<Block>): nat {
    if bs == [] then 0 else ToolUses(bs[..|bs| - 1]) + if bs[|bs| - 1].ToolUse? then 1 else 0
  }

  /** These are the names of the tool uses among the blocks, in order. */
  predicate NamesTools(names: seq<string>, bs: seq<Block>) {
    |names| == ToolUses(bs) && forall i :: 0 <= i < |bs| && bs[i].ToolUse? ==> NameIs(names, ToolUses(bs[..i]), bs[i].name)
  }

  predicate NameIs(names: seq<string>, at: nat, name: string) { at < |names| && names[at] == name }

  lemma {:induction false} ToolNamesExactly(bs: seq<Block>)
    ensures NamesTools(ToolNames(bs), bs)
  {
    if bs != [] {
      var before := bs[..|bs| - 1];
      ToolNamesExactly(before);
      forall i | 0 <= i < |bs| && bs[i].ToolUse? ensures NameIs(ToolNames(bs), ToolUses(bs[..i]), bs[i].name) {
        if i < |before| { assert before[..i] == bs[..i]; }
      }
    }
  }

  /** `_capture` of the Anthropic drop-in: the recorded output and the tool-call names. */
  method CaptureAnthropic(m: Message) returns (out: Json, toolNames: seq<string>)
    ensures out == CaptureJson(m)
    ensures toolNames == ToolNames(m.content)
    ensures TellsMessage(out, m) && NamesTools(toolNames, m.content)
  {
    ToolNamesExactly(m.content);
    CaptureTells(m);
    hide Tells, NamesTools, TellsMessage;
    var blocks: seq<Json> := [];
    toolNames := [];
    for i := 0 to |m.content|
      invariant blocks == BlocksJson(m.content[..i])
      invariant toolNames == ToolNames(m.content[..i])
    {
      var b := m.content[i];
      assert m.content[..i + 1][..i] == m.content[..i];
      assert BlocksJson(m.content[..i + 1]) == BlocksJson(m.content[..i]) + [BlockJson(b)];
      match b {
        case Text(t) =>
          blocks := blocks + [Obj(map["type" := Str("text"), "text" := Str(t)])];
        case ToolUse(id, name, input) =>
          blocks := blocks + [Obj(map["type" := Str("tool_use"), "id" := Str(id), "name" := Str(name), "input" := input])];
          toolNames := toolNames + [name];
        case Other(kind) =>
          blocks := blocks + [Obj(map["type" := Str(kind)])];
      }
    }
    assert m.content[..|m.content|] == m.content;
    var fields := map["role" := Str("assistant"), "content" := Arr(blocks)];
    if m.stopReason != "" {
      fields := fields["stop_reason" := Str(m.stopReason)];
    }
    out := Obj(fields);
  }

  /** How one native block is rebuilt; non-dictionaries are skipped. */
  function FromNative(j: Json): seq<Rebuilt> {
    if !j.Obj? then []
    else if j.Get("type") == Str("tool_use") then [RToolUse(GetOr(j, "id", Str("")), GetOr(j, "name", Str("")), j.Get("input"))]
    else [RText(GetOr(j, "text", Str("")))]
  }

  function FromNatives(js: seq<Json>): seq<Rebuilt> {
    if js == [] then [] else FromNatives(js[..|js| - 1]) + FromNative(js[|js| - 1])
  }

  function FromCall(k: Codec, tc: Json): Rebuilt {
    var fn := if tc.Get("function").Obj? then tc.Get("function") else Obj(map[]);
    RToolUse(GetOr(tc, "id", Str("")), GetOr(fn, "name", Str("")), MaybeJson(k, fn.Get("arguments")))
  }

  function FromCalls(k: Codec, tcs: seq<Json>): (r: seq<Rebuilt>)
    ensures |r| == |tcs|
    ensures forall i :: 0 <= i < |tcs| ==> r[i] == FromCall(k, tcs[i])
  {
    seq(|tcs|, i requires 0 <= i < |tcs| => FromCall(k, tcs[i]))
  }

  function RebuildAnthropic(k: Codec, output: Json): Reply {
    var msg := AssistantMessage(k, output);
    var content := msg.Get("content");
    Reply(
      if content.Arr? then FromNatives(content.items)
      else (if content.Truthy() then [RText(content)] else []) + FromCalls(k, Items(msg.Get("tool_calls"))),
      msg.Get("stop_reason"))
  }

  /** `_reconstruct_anthropic`, with the block list it appends to. */
  method ReconstructAnthropic(k: Codec, output: Json) returns (r: Reply)
    ensures r == RebuildAnthropic(k, output)
  {
    var msg := AssistantMessage(k, output);
    var content := msg.Get("content");
    var blocks: seq<Rebuilt>;
    if content.Arr? {
      blocks := NativeLoop(content.items);
    } else {
      blocks := if content.Truthy() then [RText(content)] else [];
      blocks := CallLoop(k, blocks, Items(msg.Get("tool_calls")));
    }
    r := Reply(blocks, msg.Get("stop_reason"));
  }

  method NativeLoop(items: seq<Json>) returns (blocks: seq<Rebuilt>)
    ensures blocks == FromNatives(items)
  {
    blocks := [];
    for i := 0 to |items|
      invariant blocks == FromNatives(items[..i])
    {
      var b := items[i];
      assert items[..i + 1][..i] == items[..i];
      if b.Obj? {
        if b.Get("type") == Str("tool_use") {
          blocks := blocks + [RToolUse(GetOr(b, "id", Str("")), GetOr(b, "name", Str("")), b.Get("input"))];
        } else {
          blocks := blocks + [RText(GetOr(b, "text", Str("")))];
        }
      }
    }
    assert items[..|items|] == items;
  }

  method CallLoop(k: Codec, first: seq<Rebuilt>, tcs: seq<Json>) returns (blocks: seq<Rebuilt>)
    ensures blocks == first + FromCalls(k, tcs)
  {
    blocks := first;
    for i := 0 to |tcs|
      invariant blocks == first + FromCalls(k, tcs[..i])
    {
      var fn := if tcs[i].Get("function").Obj? then tcs[i].Get("function") else Obj(map[]);
      blocks := blocks +
        [RToolUse(GetOr(tcs[i], "id", Str("")), GetOr(fn, "name", Str("")), MaybeJson(k, fn.Get("arguments")))];
      assert FromCalls(k, tcs[..i + 1]) == FromCalls(k, tcs[..i]) + [FromCall(k, tcs[i])];
    }
    assert tcs[..|tcs|] == tcs;
  }

  /** How any recorded block is read: a tool use field by field, and everything else as text, with what is missing empty. */
  predicate ReadsBlock(j: Json, r: Rebuilt)
    requires j.Obj?
  {
    if "type" in j.fields && j.fields["type"] == Str("tool_use")
    then && r.RToolUse? && r.id == Else(j.fields, "id", Str("")) && r.name == Else(j.fields, "name", Str(""))
         && r.input == Else(j.fields, "input", Null)
    else r == RText(Else(j.fields, "text", Str("")))
  }

  function Else(m: map<string, Json>, key: string, missing: Json): Json {
    match Find(m, key) case Some(v) => v case None => missing
  }

  /** ... and any OpenAI-style call: its arguments parsed if they are a string that parses. */
  predicate ReadsCall(k: Codec, tc: Json, r: Rebuilt) {
    var call: map<string, Json> := if tc.Obj? then tc.fields else map[];
    var fn: map<string, Json> := match Else(call, "function", Null) case Obj(fields) => fields case _ => map[];
    && r.RToolUse? && r.id == Else(call, "id", Str("")) && r.name == Else(fn, "name", Str(""))
    && r.input == match Else(fn, "arguments", Null)
                  case Str(s) => (match k.loads(s) case Some(v) => v case None => Str(s))
                  case v => v
  }

  function Dictionaries(js: seq<Json>): nat {
    if js == [] then 0 else Dictionaries(js[..|js| - 1]) + if js[|js| - 1].Obj? then 1 else 0
  }

  predicate ReadAt(rs: seq<Rebuilt>, at: nat, j: Json)
    requires j.Obj?
  {
    at < |rs| && ReadsBlock(j, rs[at])
  }

  /** Every dictionary in the list is read, in order, and nothing else. */
  predicate ReadsList(rs: seq<Rebuilt>, js: seq<Json>) {
    |rs| == Dictionaries(js) && forall i :: 0 <= i < |js| && js[i].Obj? ==> ReadAt(rs, Dictionaries(js[..i]), js[i])
  }

  /** The content, if there is any, is read as one text, and then every call. */
  predicate ReadsText(k: Codec, rs: seq<Rebuilt>, content: Json, calls: seq<Json>) {
    var head := if content.Truthy() then 1 else 0;
    && |rs| == head + |calls| && (head == 1 ==> rs[0] == RText(content))
    && forall i :: 0 <= i < |calls| ==> ReadsCall(k, calls[i], rs[head + i])
  }

  lemma BlockRead(j: Json)
    ensures if j.Obj? then |FromNative(j)| == 1 && ReadsBlock(j, FromNative(j)[0]) else FromNative(j) == []
  {
  }

  lemma CallRead(k: Codec, tc: Json)
    ensures ReadsCall(k, tc, FromCall(k, tc))
  {
  }

  lemma {:induction false} NativesRead(js: seq<Json>)
    ensures ReadsList(FromNatives(js), js)
  {
    if js != [] {
      var before := js[..|js| - 1];
      NativesRead(before);
      BlockRead(js[|js| - 1]);
      hide FromNative, ReadsBlock;
      forall i | 0 <= i < |js| && js[i].Obj? ensures ReadAt(FromNatives(js), Dictionaries(js[..i]), js[i]) {
        if i < |before| { assert before[..i] == js[..i]; }
      }
    }
  }

  /** What a replay reads from any recorded output whatever: a list of blocks block by block; otherwise the content, if
      there is any, as one text, and then every call. */
  lemma AnthropicReads(k: Codec, output: Json)
    ensures var msg, r := AssistantMessage(k, output), RebuildAnthropic(k, output);
            var content, calls := msg.Get("content"), Items(msg.Get("tool_calls"));
            && r.stopReason == msg.Get("stop_reason")
            && (if content.Arr? then ReadsList(r.content, content.items) else ReadsText(k, r.content, content, calls))
  {
    var content, calls := AssistantMessage(k, output).Get("content"), Items(AssistantMessage(k, output).Get("tool_calls"));
    if content.Arr? { NativesRead(content.items); }
    TextRead(k, content, calls);
    hide AssistantMessage, ReadsText, ReadsList;
  }

  lemma TextRead(k: Codec, content: Json, calls: seq<Json>)
    ensures ReadsText(k, (if content.Truthy() then [RText(content)] else []) + FromCalls(k, calls), content, calls)
  {
    forall tc ensures ReadsCall(k, tc, FromCall(k, tc)) { CallRead(k, tc); }
    hide ReadsCall, FromCall;
  }

  /** The rebuilt block carries exactly what the provider's block carried. */
  predicate Same(b: Block, r: Rebuilt) {
    match b
    case Text(t) => r == RText(Str(t))
    case ToolUse(id, name, input) => r == RToolUse(Str(id), Str(name), input)
    case Other(_) => false
  }

  predicate AllSame(bs: seq<Block>, rs: seq<Rebuilt>) {
    |bs| == |rs| && forall i :: 0 <= i < |bs| ==> Same(bs[i], rs[i])
  }

  /** A text or tool_use block comes back the same, any other as an empty text. */
  predicate Comes(b: Block, r: Rebuilt) {
    if b.Other? then r == RText(Str("")) else Same(b, r)
  }

  lemma NativeRebuilt(b: Block)
    requires WellFormed(b)
    ensures |FromNative(BlockJson(b))| == 1
    ensures Comes(b, FromNative(BlockJson(b))[0])
  {
  }

  lemma {:induction false} NativesRebuilt(bs: seq<Block>)
    requires forall b <- bs :: WellFormed(b)
    ensures |FromNatives(BlocksJson(bs))| == |bs|
    ensures forall i :: 0 <= i < |bs| ==> Comes(bs[i], FromNatives(BlocksJson(bs))[i])
  {
    if bs != [] {
      var n := |bs| - 1;
      NativesRebuilt(bs[..n]);
      NativeRebuilt(bs[n]);
      hide BlockJson, FromNative, Comes, WellFormed;
      assert BlocksJson(bs)[..n] == BlocksJson(bs[..n]);
      assert FromNatives(BlocksJson(bs)) == FromNatives(BlocksJson(bs[..n])) + FromNative(BlockJson(bs[n]));
    }
  }

  lemma CapturedFields(m: Message)
    ensures var j := CaptureJson(m);
            && j.Obj? && j.Get("message") == Null
            && j.Get("content") == Arr(BlocksJson(m.content))
            && j.Get("stop_reason") == if m.stopReason != "" then Str(m.stopReason) else Null
  {
  }

  /** The drop-in round trip: what a replay rebuilds from the recorded reply, in the form it is stored
      (printed) or as parsed JSON, is the provider's reply block for block, exactly when the reply is made
      of text and tool_use blocks; the stop reason survives in any case. */
  lemma AnthropicRoundTrip(k: Codec, m: Message)
    requires Lawful(k) && forall b <- m.content :: WellFormed(b)
    ensures RebuildAnthropic(k, Str(k.dumps(CaptureJson(m)))) == RebuildAnthropic(k, CaptureJson(m))
    ensures AllSame(m.content, RebuildAnthropic(k, CaptureJson(m)).content) <==> forall b <- m.content :: !b.Other?
    ensures RebuildAnthropic(k, CaptureJson(m)).stopReason == if m.stopReason != "" then Str(m.stopReason) else Null
  {
    var j := CaptureJson(m);
    CapturedFields(m);
    AnyShape(k, j, []);
    NativesRebuilt(m.content);
    hide CaptureJson, AssistantMessage, BlockJson, FromNative;
    var rs := FromNatives(BlocksJson(m.content));
    assert RebuildAnthropic(k, j).content == rs;
    if AllSame(m.content, rs) {
      forall b <- m.content ensures !b.Other? {
        var i :| 0 <= i < |m.content| && m.content[i] == b;
        assert Same(m.content[i], rs[i]);
      }
    }
  }

  // ---------------------------------------------------------------- the canonical shape

  /** All text of a reply, which is what a canonical content string holds. */
  function JoinTexts(bs: seq<Block>): string {
    if bs == [] then "" else (if bs[0].Text? then bs[0].text else "") + JoinTexts(bs[1..])
  }

  /** ... in order. */
  lemma {:induction false} TextsInOrder(a: seq<Block>, b: seq<Block>)
    ensures JoinTexts(a + b) == JoinTexts(a) + JoinTexts(b)
  {
    if a == [] {
      assert a + b == b;
    } else {
      assert (a + b)[1..] == a[1..] + b;
      TextsInOrder(a[1..], b);
    }
  }

  lemma OneText(b: Block)
    ensures JoinTexts([b]) == if b.Text? then b.text else ""
  {
    assert [b][1..] == [];
  }

  function Tools(bs: seq<Block>): (r: seq<Block>)
    ensures forall b <- r :: b.ToolUse? && b in bs
  {
    if bs == [] then [] else (if bs[0].ToolUse? then [bs[0]] else []) + Tools(bs[1..])
  }

  /** A tool use as an OpenAI-style call, its input printed into `arguments`. */
  function CallJson(k: Codec, b: Block): Json
    requires b.ToolUse?
  {
    Obj(map["id" := Str(b.id), "type" := Str("function"),
            "function" := Obj(map["name" := Str(b.name), "arguments" := Str(k.dumps(b.input))])])
  }

  function CallsJson(k: Codec, bs: seq<Block>): (js: seq<Json>)
    requires forall b <- bs :: b.ToolUse?
    ensures |js| == |bs|
    ensures forall i :: 0 <= i < |bs| ==> js[i] == CallJson(k, bs[i])
  {
    seq(|bs|, i requires 0 <= i < |bs| => CallJson(k, bs[i]))
  }

  /** The canonical form of the same reply: a content string and a list of calls. */
  function Canonical(k: Codec, bs: seq<Block>): Json {
    var text := JoinTexts(bs);
    Obj(map["role" := Str("assistant"), "content" := if text != "" then Str(text) else Null,
            "tool_calls" := Arr(CallsJson(k, Tools(bs)))])
  }

  /** At most one text, first and not empty, followed by tool uses only. */
  predicate TextThenTools(bs: seq<Block>) {
    && (bs != [] && bs[0].Text? ==> bs[0].text != "")
    && (forall i :: 0 < i < |bs| ==> bs[i].ToolUse?)
    && (bs != [] ==> !bs[0].Other?)
  }

  lemma {:induction false} OnlyTools(bs: seq<Block>)
    requires forall b <- bs :: b.ToolUse?
    ensures Tools(bs) == bs && JoinTexts(bs) == ""
  {
    if bs != [] { OnlyTools(bs[1..]); }
  }

  lemma CallRebuilt(k: Codec, b: Block)
    requires Lawful(k) && b.ToolUse?
    ensures Same(b, FromCall(k, CallJson(k, b)))
  {
    assert k.loads(k.dumps(b.input)) == Some(b.input);
  }

  lemma CanonicalFields(k: Codec, bs: seq<Block>)
    ensures var j := Canonical(k, bs);
            && j.Obj? && j.Get("message") == Null
            && j.Get("content") == (if JoinTexts(bs) != "" then Str(JoinTexts(bs)) else Null)
            && j.Get("tool_calls") == Arr(CallsJson(k, Tools(bs)))
  {
  }

  /** What the canonical form of `bs` is rebuilt into: its text, if there is any, then its tool uses. */
  ghost predicate FromCanonical(bs: seq<Block>, rs: seq<Rebuilt>) {
    var head := if JoinTexts(bs) != "" then 1 else 0;
    && |rs| == head + |Tools(bs)|
    && (head == 1 ==> rs[0] == RText(Str(JoinTexts(bs))))
    && forall i :: 0 <= i < |Tools(bs)| ==> Same(Tools(bs)[i], rs[head + i])
  }

  lemma CanonicalRebuilt(k: Codec, bs: seq<Block>)
    requires Lawful(k)
    ensures FromCanonical(bs, RebuildAnthropic(k, Canonical(k, bs)).content)
  {
    var j := Canonical(k, bs);
    CanonicalFields(k, bs);
    AnyShape(k, j, []);
    hide Canonical, CallJson, FromCall, Same, AssistantMessage, JoinTexts, Tools;
    var calls := CallsJson(k, Tools(bs));
    var head := if JoinTexts(bs) != "" then [RText(Str(JoinTexts(bs)))] else [];
    assert RebuildAnthropic(k, j).content == head + FromCalls(k, calls);
    forall i | 0 <= i < |Tools(bs)| ensures Same(Tools(bs)[i], FromCall(k, calls[i])) {
      CallRebuilt(k, Tools(bs)[i]);
    }
  }

  lemma ShapeParts(bs: seq<Block>)
    requires TextThenTools(bs)
    ensures var head := if bs != [] && bs[0].Text? then 1 else 0;
            JoinTexts(bs) == (if head == 1 then bs[0].text else "") && Tools(bs) == bs[head..]
  {
    if bs != [] && bs[0].Text? {
      OnlyTools(bs[1..]);
    } else {
      OnlyTools(bs);
    }
  }

  lemma ShapeSuffices(bs: seq<Block>, rs: seq<Rebuilt>)
    requires FromCanonical(bs, rs) && TextThenTools(bs)
    ensures AllSame(bs, rs)
  {
    ShapeParts(bs);
    var head := if bs != [] && bs[0].Text? then 1 else 0;
    hide JoinTexts, Tools;
    forall i | 0 <= i < |bs| ensures Same(bs[i], rs[i]) {
      if i >= head { assert Same(Tools(bs)[i - head], rs[head + (i - head)]); }
    }
  }

  lemma ShapeNeeded(bs: seq<Block>, rs: seq<Rebuilt>)
    requires FromCanonical(bs, rs) && AllSame(bs, rs) && forall b <- bs :: !b.Other?
    ensures TextThenTools(bs)
  {
    hide Tools, JoinTexts;
    assert forall i :: 0 <= i < |bs| ==> bs[i] in bs;
    if bs != [] && bs[0].Text? {
      assert Same(bs[0], rs[0]);
      assert JoinTexts(bs) == "" ==> Same(Tools(bs)[0], rs[0]);
    }
    forall i | 0 < i < |bs| ensures bs[i].ToolUse? {
      assert Same(bs[i], rs[i]);
      var head := if JoinTexts(bs) != "" then 1 else 0;
      assert Same(Tools(bs)[i - head], rs[i]);
    }
  }

  /** The canonical shape of a reply without exotic blocks rebuilds the same blocks as the native one
      exactly when the reply is at most one non-empty text followed by tool uses. */
  lemma CanonicalAgreesWithNative(k: Codec, bs: seq<Block>)
    requires Lawful(k) && forall b <- bs :: !b.Other?
    ensures AllSame(bs, RebuildAnthropic(k, Canonical(k, bs)).content) <==> TextThenTools(bs)
  {
    CanonicalRebuilt(k, bs);
    hide FromCanonical, AllSame, TextThenTools, RebuildAnthropic, Canonical;
    var rs := RebuildAnthropic(k, Canonical(k, bs)).content;
    if TextThenTools(bs) { ShapeSuffices(bs, rs); }
    if AllSame(bs, rs) { ShapeNeeded(bs, rs); }
  }

  // ---------------------------------------------------------------- OpenAI

  datatype ToolCall = ToolCall(id: string, kind: string, name: string, arguments: string)

  datatype Choice = Choice(role: string, content: Option<string>, toolCalls: seq<ToolCall>, finishReason: string)

  /** `tc.model_dump()`. */
  function Dump(tc: ToolCall): Json {
    Obj(map["id" := Str(tc.id), "type" := Str(tc.kind),
            "function" := Obj(map["name" := Str(tc.name), "arguments" := Str(tc.arguments)])])
  }

  function Dumps(tcs: seq<ToolCall>): (js: seq<Json>)
    ensures |js| == |tcs|
    ensures forall i :: 0 <= i < |tcs| ==> js[i] == Dump(tcs[i])
  {
    seq(|tcs|, i requires 0 <= i < |tcs| => Dump(tcs[i]))
  }

  /** The recorded JSON tells these facts about the provider's choice, and no others. */
  ghost predicate Records(j: Json, c: Choice) {
    && j.Obj?
    && (forall k :: k in j.fields ==> k in {"role", "content", "tool_calls", "finish_reason"})
    && j.Get("role") == Str(c.role)
    && j.Get("content") == (if c.content.Some? then Str(c.content.value) else Null)
    && (if c.toolCalls == [] then "tool_calls" !in j.fields else j.Get("tool_calls") == Arr(Dumps(c.toolCalls)))
    && (if c.finishReason == "" then "finish_reason" !in j.fields else j.Get("finish_reason") == Str(c.finishReason))
  }

  /** `_capture` of the OpenAI drop-in: replay gives back what the provider said, whether the recording is kept
      as JSON or printed. */
  method CaptureOpenAi(c: Choice) returns (out: Json)
    ensures Records(out, c)
    ensures forall k :: Lawful(k) ==>
              Gives(ReconstructOpenAi(k, out), c) && Gives(ReconstructOpenAi(k, Str(k.dumps(out))), c)
  {
    var fields := map["role" := Str(c.role), "content" := if c.content.Some? then Str(c.content.value) else Null];
    if c.toolCalls != [] {
      fields := fields["tool_calls" := Arr(Dumps(c.toolCalls))];
    }
    if c.finishReason != "" {
      fields := fields["finish_reason" := Str(c.finishReason)];
    }
    out := Obj(fields);
    forall k | Lawful(k) ensures Gives(ReconstructOpenAi(k, out), c) && Gives(ReconstructOpenAi(k, Str(k.dumps(out))), c) {
      OpenAiRoundTrip(k, c, out);
    }
  }

  datatype RebuiltCall = RebuiltCall(id: Json, kind: Json, fn: map<string, Json>)

  /** `toolCalls` is absent rather than empty, as in the provider's own replies. */
  datatype Completion = Completion(content: Json, toolCalls: Option<seq<RebuiltCall>>, finishReason: string)

  function FromDump(tc: Json): RebuiltCall {
    RebuiltCall(GetOr(tc, "id", Str("")), GetOr(tc, "type", Str("function")),
                if tc.Get("function").Obj? then tc.Get("function").fields else map[])
  }

  function FromDumps(tcs: seq<Json>): seq<RebuiltCall> {
    if tcs == [] then []
    else FromDumps(tcs[..|tcs| - 1]) + if tcs[|tcs| - 1].Obj? then [FromDump(tcs[|tcs| - 1])] else []
  }

  /** `_reconstruct_openai_chat`. */
  function ReconstructOpenAi(k: Codec, output: Json): Completion {
    var msg := AssistantMessage(k, output);
    var calls := FromDumps(Items(msg.Get("tool_calls")));
    Completion(msg.Get("content"), if calls == [] then None else Some(calls), "stop")
  }

  /** How any recorded call is read: what is missing is empty, and its type "function". */
  predicate ReadsDump(tc: Json, r: RebuiltCall)
    requires tc.Obj?
  {
    && r.id == Else(tc.fields, "id", Str("")) && r.kind == Else(tc.fields, "type", Str("function"))
    && r.fn == match Else(tc.fields, "function", Null) case Obj(fields) => fields case _ => map[]
  }

  predicate DumpReadAt(rs: seq<RebuiltCall>, at: nat, tc: Json)
    requires tc.Obj?
  {
    at < |rs| && ReadsDump(tc, rs[at])
  }

  predicate ReadsDumps(rs: seq<RebuiltCall>, js: seq<Json>) {
    |rs| == Dictionaries(js) && forall i :: 0 <= i < |js| && js[i].Obj? ==> DumpReadAt(rs, Dictionaries(js[..i]), js[i])
  }

  lemma {:induction false} DumpsRead(js: seq<Json>)
    ensures ReadsDumps(FromDumps(js), js)
  {
    if js != [] {
      var before := js[..|js| - 1];
      DumpsRead(before);
      assert js[|js| - 1].Obj? ==> ReadsDump(js[|js| - 1], FromDump(js[|js| - 1]));
      hide FromDump, ReadsDump;
      forall i | 0 <= i < |js| && js[i].Obj? ensures DumpReadAt(FromDumps(js), Dictionaries(js[..i]), js[i]) {
        if i < |before| { assert before[..i] == js[..i]; }
      }
    }
  }

  /** What a replay reads from any recorded completion whatever: its content, and every call that is a dictionary, none
      being none; the finish reason is always "stop". */
  lemma OpenAiReads(k: Codec, output: Json)
    ensures var msg, r := AssistantMessage(k, output), ReconstructOpenAi(k, output);
            var calls := Items(msg.Get("tool_calls"));
            && r.content == msg.Get("content") && r.finishReason == "stop"
            && (if forall tc <- calls :: !tc.Obj? then r.toolCalls.None? else r.toolCalls.Some? && ReadsDumps(r.toolCalls.value, calls))
  {
    var calls := Items(AssistantMessage(k, output).Get("tool_calls"));
    DumpsRead(calls);
    AnyDictionary(calls);
    hide AssistantMessage;
  }

  lemma {:induction false} AnyDictionary(js: seq<Json>)
    ensures Dictionaries(js) == 0 <==> forall j <- js :: !j.Obj?
  {
    if js != [] {
      AnyDictionary(js[..|js| - 1]);
      assert js == js[..|js| - 1] + [js[|js| - 1]];
    }
  }

  predicate CallsKept(tcs: seq<ToolCall>, rs: seq<RebuiltCall>) {
    |rs| == |tcs| && forall i :: 0 <= i < |tcs| ==>
      rs[i] == RebuiltCall(Str(tcs[i].id), Str(tcs[i].kind),
                           map["name" := Str(tcs[i].name), "arguments" := Str(tcs[i].arguments)])
  }

  lemma DumpRebuilt(tc: ToolCall)
    ensures Dump(tc).Obj?
    ensures FromDump(Dump(tc)) ==
            RebuiltCall(Str(tc.id), Str(tc.kind), map["name" := Str(tc.name), "arguments" := Str(tc.arguments)])
  {
  }

  lemma {:induction false} DumpsRebuilt(tcs: seq<ToolCall>)
    ensures CallsKept(tcs, FromDumps(Dumps(tcs)))
  {
    if tcs != [] {
      var n := |tcs| - 1;
      DumpsRebuilt(tcs[..n]);
      DumpRebuilt(tcs[n]);
      hide Dump, FromDump;
      assert Dumps(tcs)[..n] == Dumps(tcs[..n]);
      assert FromDumps(Dumps(tcs)) == FromDumps(Dumps(tcs[..n])) + [FromDump(Dump(tcs[n]))];
    }
  }

  /** What an agent reads off the rebuilt completion: the content, and every tool call in order and in full, none
      coming back as none; the finish reason is always "stop". */
  ghost predicate Gives(r: Completion, c: Choice) {
    && r.content == (if c.content.Some? then Str(c.content.value) else Null)
    && (r.toolCalls.None? <==> c.toolCalls == [])
    && (r.toolCalls.Some? ==> CallsKept(c.toolCalls, r.toolCalls.value))
    && r.finishReason == "stop"
  }

  /** The OpenAI pair: whatever records the choice, printed or not, gives it back. */
  lemma OpenAiRoundTrip(k: Codec, c: Choice, j: Json)
    requires Lawful(k) && Records(j, c)
    ensures Gives(ReconstructOpenAi(k, j), c) && Gives(ReconstructOpenAi(k, Str(k.dumps(j))), c)
  {
    assert j.Get("message") == Null && Items(j.Get("tool_calls")) == Dumps(c.toolCalls);
    AnyShape(k, j, []);
    DumpsRebuilt(c.toolCalls);
    hide AssistantMessage, CallsKept, Records;
  }
}
