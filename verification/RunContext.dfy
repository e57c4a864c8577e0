/** `tracely.trace(...)`: a context variable that blocks and decorated functions set and reset, and the
    attributes every span takes from it. */
module RunContext {
  import opened Prelude

  /** The fields one `trace(...)` sets; `metadata` is merged key by key, the rest field by field. */
  datatype Fields = Fields(plain: map<string, Json>, metadata: map<string, Json>)

  const NOTHING := Fields(map[], map[])

  /** `_run_ctx`: unset, or the merged fields. */
  type Ctx = Option<Fields>

  function OrNothing(c: Ctx): Fields {
    if c.Some? then c.value else NOTHING
  }

  /** What `_Trace.__init__` keeps of its arguments. */
  function Kept(fields: map<string, Json>): map<string, Json> {
    map k | k in fields && fields[k] != Null && fields[k] != Obj(map[]) :: fields[k]
  }

  function Merge(parent: Fields, f: Fields): Fields {
    Fields(parent.plain + f.plain, parent.metadata + f.metadata)
  }

  // ---------------------------------------------------------------- the objects

  class ContextVar {
    var value: Ctx

    constructor ()
      ensures value == None
    {
      value := None;
    }
  }

  /** A `_Trace` object with its single reset slot. */
  class Trace {
    const fields: Fields
    var token: Option<Ctx>

    constructor (plain: map<string, Json>, metadata: map<string, Json>)
      ensures fields == Fields(Kept(plain), metadata) && token == None
      ensures forall k :: Find(fields.plain, k) ==
                if k in plain && plain[k] != Null && plain[k] != Obj(map[]) then Some(plain[k]) else None
    {
      fields := Fields(Kept(plain), metadata);
      token := None;
    }

    /** `__enter__`: the slot is overwritten even when it is in use. */
    method Enter(v: ContextVar)
      modifies this, v
      ensures v.value == Entered(old(v.value), fields)
      ensures token == Some(old(v.value))
    {
      var parent := OrNothing(v.value);
      token := Some(v.value);
      v.value := Some(Fields(parent.plain + fields.plain, parent.metadata + fields.metadata));
    }

    /** `__exit__`, on a normal or an exceptional way out. */
    method Exit(v: ContextVar)
      modifies this, v
      ensures v.value == if old(token).Some? then old(token).value else old(v.value)
      ensures token == None
    {
      if token.Some? {
        v.value := token.value;
        token := None;
      }
    }
  }

  function Entered(c: Ctx, f: Fields): Ctx {
    Some(Merge(OrNothing(c), f))
  }

  // ---------------------------------------------------------------- programs

  /** Programs over trace objects named by number. `Call` runs a decorated function, which opens an
      object of its own; `Span` starts a span; `Raise` is any exception, `Catch` stops it. */
  datatype Prog =
    | Skip
    | Then(first: Prog, rest: Prog)
    | With(obj: nat, body: Prog)
    | Call(fields: Fields, body: Prog)
    | Span
    | Raise
    | Catch(body: Prog)

  /** `tokens` holds the occupied reset slots, `seen` the context each started span read. */
  datatype State = State(ctx: Ctx, tokens: map<nat, Ctx>, seen: seq<Ctx>)

  type Objects = nat -> Fields

  function Exec(p: Prog, objs: Objects, st: State): (r: (State, bool)) {
    match p
    case Skip => (st, false)
    case Then(a, b) =>
      var (st1, raised) := Exec(a, objs, st);
      if raised then (st1, true) else Exec(b, objs, st1)
    case With(o, body) =>
      var entered := State(Entered(st.ctx, objs(o)), st.tokens[o := st.ctx], st.seen);
      var (st1, raised) := Exec(body, objs, entered);
      if o in st1.tokens then (State(st1.tokens[o], st1.tokens - {o}, st1.seen), raised) else (st1, raised)
    case Call(f, body) =>
      var (st1, raised) := Exec(body, objs, st.(ctx := Entered(st.ctx, f)));
      (st1.(ctx := st.ctx), raised)
    case Span => (st.(seen := st.seen + [st.ctx]), false)
    case Raise => (st, true)
    case Catch(body) => (Exec(body, objs, st).0, false)
  }

  /** No object is entered through `with` while it is open; decorated functions may recurse freely. */
  predicate NoReentry(p: Prog, open: set<nat>) {
    match p
    case Then(a, b) => NoReentry(a, open) && NoReentry(b, open)
    case With(o, body) => o !in open && NoReentry(body, open + {o})
    case Call(f, body) => NoReentry(body, open)
    case Catch(body) => NoReentry(body, open)
    case _ => true
  }

  // ---------------------------------------------------------------- lexical scoping

  /** The reference semantics: no variable and no slots, only the stack of enclosing frames each span
      is started in, outermost first. */
  function Lexical(p: Prog, objs: Objects, frames: seq<Fields>): (seq<seq<Fields>>, bool) {
    match p
    case Skip => ([], false)
    case Then(a, b) =>
      var (s1, raised) := Lexical(a, objs, frames);
      if raised then (s1, true) else var (s2, r2) := Lexical(b, objs, frames); (s1 + s2, r2)
    case With(o, body) => Lexical(body, objs, frames + [objs(o)])
    case Call(f, body) => Lexical(body, objs, frames + [f])
    case Span => ([frames], false)
    case Raise => ([], true)
    case Catch(body) => (Lexical(body, objs, frames).0, false)
  }

  /** The context inside a stack of frames opened on top of `base`. */
  function Inside(base: Ctx, frames: seq<Fields>): Ctx {
    if frames == [] then base else Entered(Inside(base, frames[..|frames| - 1]), frames[|frames| - 1])
  }

  function AllInside(base: Ctx, stacks: seq<seq<Fields>>): (r: seq<Ctx>)
    ensures |r| == |stacks|
  {
    seq(|stacks|, i requires 0 <= i < |stacks| => Inside(base, stacks[i]))
  }

  lemma InsideSnoc(base: Ctx, frames: seq<Fields>, f: Fields)
    ensures Inside(base, frames + [f]) == Entered(Inside(base, frames), f)
  {
    assert (frames + [f])[..|frames|] == frames;
  }

  lemma AllInsideFew(base: Ctx, frames: seq<Fields>)
    ensures AllInside(base, []) == [] && AllInside(base, [frames]) == [Inside(base, frames)]
  {
  }

  lemma AllInsideConcat(base: Ctx, a: seq<seq<Fields>>, b: seq<seq<Fields>>)
    ensures AllInside(base, a + b) == AllInside(base, a) + AllInside(base, b)
  {
  }

  lemma SlotFreed(tokens: map<nat, Ctx>, o: nat, c: Ctx)
    requires o !in tokens
    ensures tokens[o := c].Keys == tokens.Keys + {o}
    ensures tokens[o := c] - {o} == tokens
  {
  }

  /** Without re-entry, the context variable implements lexical scoping: on every way out the context
      and all slots are exactly what they were, and every span read the merge of the frames around it. */
  lemma {:induction false} Scoped(p: Prog, objs: Objects, st: State, base: Ctx, frames: seq<Fields>)
    requires NoReentry(p, st.tokens.Keys)
    requires st.ctx == Inside(base, frames)
    ensures var (st', raised) := Exec(p, objs, st);
            var (stacks, raised') := Lexical(p, objs, frames);
            && st'.ctx == st.ctx && st'.tokens == st.tokens
            && raised == raised' && st'.seen == st.seen + AllInside(base, stacks)
    decreases p
  {
    hide Inside, AllInside, Entered;
    AllInsideFew(base, frames);
    match p
    case Then(a, b) =>
      Scoped(a, objs, st, base, frames);
      var (st1, raised) := Exec(a, objs, st);
      if !raised {
        Scoped(b, objs, st1, base, frames);
        AllInsideConcat(base, Lexical(a, objs, frames).0, Lexical(b, objs, frames).0);
      }
    case With(o, body) =>
      InsideSnoc(base, frames, objs(o));
      var entered := State(Entered(st.ctx, objs(o)), st.tokens[o := st.ctx], st.seen);
      SlotFreed(st.tokens, o, st.ctx);
      Scoped(body, objs, entered, base, frames + [objs(o)]);
    case Call(f, body) =>
      InsideSnoc(base, frames, f);
      Scoped(body, objs, st.(ctx := Entered(st.ctx, f)), base, frames + [f]);
    case Catch(body) =>
      Scoped(body, objs, st, base, frames);
    case _ =>
  }

  /** Within a stack of frames each field, and each metadata key, has the value the innermost frame
      that sets it gave it; keys no frame sets come from the context outside. */
  lemma {:induction false} InnermostWins(base: Ctx, frames: seq<Fields>, i: nat, k: string)
    requires i < |frames|
    ensures k in frames[i].plain && (forall j :: i < j < |frames| ==> k !in frames[j].plain) ==>
              Inside(base, frames).Some? && k in Inside(base, frames).value.plain
              && Inside(base, frames).value.plain[k] == frames[i].plain[k]
    ensures k in frames[i].metadata && (forall j :: i < j < |frames| ==> k !in frames[j].metadata) ==>
              Inside(base, frames).Some? && k in Inside(base, frames).value.metadata
              && Inside(base, frames).value.metadata[k] == frames[i].metadata[k]
    decreases |frames|
  {
    if i < |frames| - 1 { InnermostWins(base, frames[..|frames| - 1], i, k); }
  }

  lemma {:induction false} UnsetComesFromOutside(base: Ctx, frames: seq<Fields>, k: string)
    ensures var (c, b) := (OrNothing(Inside(base, frames)), OrNothing(base));
            && ((forall f <- frames :: k !in f.plain) ==> (k in c.plain <==> k in b.plain) && (k in b.plain ==> c.plain[k] == b.plain[k]))
            && ((forall f <- frames :: k !in f.metadata) ==>
                  (k in c.metadata <==> k in b.metadata) && (k in b.metadata ==> c.metadata[k] == b.metadata[k]))
    decreases |frames|
  {
    if frames != [] {
      UnsetComesFromOutside(base, frames[..|frames| - 1], k);
      assert frames == frames[..|frames| - 1] + [frames[|frames| - 1]];
    }
  }

  // ---------------------------------------------------------------- re-entry

  /** Whether running the program raises. */
  predicate Raises(p: Prog) {
    match p
    case Then(a, b) => Raises(a) || Raises(b)
    case With(_, body) => Raises(body)
    case Call(_, body) => Raises(body)
    case Raise => true
    case _ => false
  }

  /** Whether running the program enters object `o`: code after a raise is not run. */
  predicate Opens(p: Prog, o: nat) {
    match p
    case Then(a, b) => Opens(a, o) || (!Raises(a) && Opens(b, o))
    case With(x, body) => x == o || Opens(body, o)
    case Call(_, body) => Opens(body, o)
    case Catch(body) => Opens(body, o)
    case _ => false
  }

  /** In any program at all, an occupied slot is emptied exactly when its object is entered again, and keeps its
      content otherwise; and no slot is left occupied that was free. */
  lemma {:induction false} SlotEmptied(p: Prog, objs: Objects, st: State, o: nat)
    ensures Exec(p, objs, st).1 == Raises(p)
    ensures Find(Exec(p, objs, st).0.tokens, o) == if Opens(p, o) then None else Find(st.tokens, o)
    decreases p
  {
    match p
    case Then(a, b) =>
      SlotEmptied(a, objs, st, o);
      if !Raises(a) { SlotEmptied(b, objs, Exec(a, objs, st).0, o); }
    case With(x, body) =>
      SlotEmptied(body, objs, State(Entered(st.ctx, objs(x)), st.tokens[x := st.ctx], st.seen), o);
    case Call(f, body) =>
      SlotEmptied(body, objs, st.(ctx := Entered(st.ctx, f)), o);
    case Catch(body) => SlotEmptied(body, objs, st, o);
    case _ =>
  }

  /** So a `with` block, around any body, puts the context back exactly unless the body enters its object again;
      then it leaves the context as the body left it. */
  lemma WithExactly(o: nat, body: Prog, objs: Objects, st: State)
    ensures var inner := Exec(body, objs, State(Entered(st.ctx, objs(o)), st.tokens[o := st.ctx], st.seen)).0;
            Exec(With(o, body), objs, st).0.ctx == if Opens(body, o) then inner.ctx else st.ctx
  {
    SlotEmptied(body, objs, State(Entered(st.ctx, objs(o)), st.tokens[o := st.ctx], st.seen), o);
  }

  /** A body that may enter the open object `o` anywhere, and re-enters nothing else, leaves the context it found. */
  lemma {:induction false} BodyRestores(p: Prog, objs: Objects, st: State, o: nat)
    requires o in st.tokens && NoReentry(p, st.tokens.Keys - {o})
    ensures Exec(p, objs, st).0.ctx == st.ctx
    ensures Exec(p, objs, st).0.tokens == if Opens(p, o) then st.tokens - {o} else st.tokens
    ensures Exec(p, objs, st).1 == Raises(p)
    decreases p
  {
    match p
    case Then(a, b) =>
      BodyRestores(a, objs, st, o);
      var st1 := Exec(a, objs, st).0;
      if !Raises(a) {
        if Opens(a, o) {
          assert st1.tokens.Keys == st.tokens.Keys - {o};
          Scoped(b, objs, st1, st1.ctx, []);
          SlotEmptied(b, objs, st1, o);
          assert st1.tokens == st.tokens - {o};
        } else {
          BodyRestores(b, objs, st1, o);
        }
      }
    case With(x, body) =>
      var entered := State(Entered(st.ctx, objs(x)), st.tokens[x := st.ctx], st.seen);
      if x == o {
        assert entered.tokens.Keys == st.tokens.Keys - {o} + {o};
        Scoped(body, objs, entered, entered.ctx, []);
        SlotEmptied(body, objs, entered, o);
        assert entered.tokens - {o} == st.tokens - {o};
      } else {
        assert entered.tokens.Keys - {o} == st.tokens.Keys - {o} + {x};
        BodyRestores(body, objs, entered, o);
        assert entered.tokens - {o} - {x} == st.tokens - {o};
        assert entered.tokens - {x} == st.tokens;
      }
    case Call(f, body) =>
      BodyRestores(body, objs, st.(ctx := Entered(st.ctx, f)), o);
    case Catch(body) => BodyRestores(body, objs, st, o);
    case _ =>
  }

  /** The one slot is what limits `with`. Where the body re-enters `o` anywhere, and nothing else while open, the
      block leaves its own fields behind exactly when the code that ran entered `o` again; so the context is
      restored exactly when it did not, or those fields were in it already. */
  lemma ReentryLeaks(o: nat, body: Prog, objs: Objects, st: State)
    requires o !in st.tokens && NoReentry(body, st.tokens.Keys)
    ensures var st' := Exec(With(o, body), objs, st).0;
            && st'.ctx == (if Opens(body, o) then Entered(st.ctx, objs(o)) else st.ctx)
            && (st'.ctx == st.ctx <==> !Opens(body, o) || Entered(st.ctx, objs(o)) == st.ctx)
  {
    var entered := State(Entered(st.ctx, objs(o)), st.tokens[o := st.ctx], st.seen);
    assert entered.tokens.Keys - {o} == st.tokens.Keys;
    WithExactly(o, body, objs, st);
    BodyRestores(body, objs, entered, o);
  }

  // ---------------------------------------------------------------- the objects perform the programs

  class SpanLog {
    var seen: seq<Ctx>

    constructor ()
      ensures seen == []
    {
      seen := [];
    }
  }

  predicate Distinct(pool: seq<Trace>) { forall i, j :: 0 <= i < j < |pool| ==> pool[i] != pool[j] }

  function FieldsOf(pool: seq<Trace>): Objects {
    (o: nat) => if o < |pool| then pool[o].fields else NOTHING
  }

  /** The objects named are there, and a decorated function passes on fields that a trace object has kept. */
  predicate Runnable(p: Prog, n: nat) {
    match p
    case Then(a, b) => Runnable(a, n) && Runnable(b, n)
    case With(o, body) => o < n && Runnable(body, n)
    case Call(f, body) => Kept(f.plain) == f.plain && Runnable(body, n)
    case Catch(body) => Runnable(body, n)
    case _ => true
  }

  function Slots(pool: seq<Trace>): map<nat, Ctx>
    reads pool
  {
    map o: nat | o < |pool| && pool[o].token.Some? :: pool[o].token.value
  }

  ghost function StateOf(v: ContextVar, pool: seq<Trace>, log: SpanLog): State
    reads v, pool, log
  {
    State(v.value, Slots(pool), log.seen)
  }

  /** Running a program with real trace objects, entering and leaving them on every way out, is `Exec`. */
  method Perform(p: Prog, v: ContextVar, pool: seq<Trace>, log: SpanLog) returns (raised: bool)
    requires Distinct(pool) && Runnable(p, |pool|)
    modifies v, pool, log
    ensures (StateOf(v, pool, log), raised) == Exec(p, FieldsOf(pool), old(StateOf(v, pool, log)))
    decreases p, 1
  {
    raised := false;
    match p
    case Skip =>
    case Then(a, b) =>
      raised := Perform(a, v, pool, log);
      if !raised {
        raised := Perform(b, v, pool, log);
      }
    case With(o, body) =>
      raised := PerformWith(p, v, pool, log);
    case Call(f, body) =>
      raised := PerformCall(p, v, pool, log);
    case Span =>
      log.seen := log.seen + [v.value];
      assert Slots(pool) == old(Slots(pool));
    case Raise =>
      raised := true;
    case Catch(body) =>
      var caught := Perform(body, v, pool, log);
  }

  method EnterAt(o: nat, v: ContextVar, pool: seq<Trace>)
    requires Distinct(pool) && o < |pool|
    modifies v, pool
    ensures v.value == Entered(old(v.value), pool[o].fields) && Slots(pool) == old(Slots(pool))[o := old(v.value)]
  {
    pool[o].Enter(v);
  }

  method ExitAt(o: nat, v: ContextVar, pool: seq<Trace>)
    requires Distinct(pool) && o < |pool|
    modifies v, pool
    ensures var slots := old(Slots(pool));
            v.value == (if o in slots then slots[o] else old(v.value)) && Slots(pool) == slots - {o}
  {
    pool[o].Exit(v);
  }

  method PerformWith(p: Prog, v: ContextVar, pool: seq<Trace>, log: SpanLog) returns (raised: bool)
    requires p.With? && Distinct(pool) && Runnable(p, |pool|)
    modifies v, pool, log
    ensures (StateOf(v, pool, log), raised) == Exec(p, FieldsOf(pool), old(StateOf(v, pool, log)))
    decreases p, 0
  {
    ghost var objs, st := FieldsOf(pool), StateOf(v, pool, log);
    assert objs(p.obj) == pool[p.obj].fields;
    hide Exec, Entered, FieldsOf;
    EnterAt(p.obj, v, pool);
    raised := Perform(p.body, v, pool, log);
    ghost var st1 := StateOf(v, pool, log);
    ExitAt(p.obj, v, pool);
    WithSteps(p, objs, st, st1, raised, StateOf(v, pool, log));
  }

  lemma WithSteps(p: Prog, objs: Objects, st: State, st1: State, raised: bool, end: State)
    requires p.With? && (st1, raised) == Exec(p.body, objs, State(Entered(st.ctx, objs(p.obj)), st.tokens[p.obj := st.ctx], st.seen))
    requires end == State(if p.obj in st1.tokens then st1.tokens[p.obj] else st1.ctx, st1.tokens - {p.obj}, st1.seen)
    ensures (end, raised) == Exec(p, objs, st)
  {
    if p.obj !in st1.tokens { assert st1.tokens - {p.obj} == st1.tokens; }
  }

  /** A decorated function's own object is fresh, and nobody else ever sees its slot. */
  method PerformCall(p: Prog, v: ContextVar, pool: seq<Trace>, log: SpanLog) returns (raised: bool)
    requires p.Call? && Distinct(pool) && Runnable(p, |pool|)
    modifies v, pool, log
    ensures (StateOf(v, pool, log), raised) == Exec(p, FieldsOf(pool), old(StateOf(v, pool, log)))
    decreases p, 0
  {
    ghost var objs, st := FieldsOf(pool), StateOf(v, pool, log);
    var own := new Trace(p.fields.plain, p.fields.metadata);
    assert own.fields == p.fields;
    hide Exec, Entered, FieldsOf, Kept;
    own.Enter(v);
    assert Slots(pool) == st.tokens;
    raised := Perform(p.body, v, pool, log);
    ghost var st1 := StateOf(v, pool, log);
    own.Exit(v);
    assert Slots(pool) == st1.tokens;
    CallSteps(p, objs, st, st1, raised);
  }

  lemma CallSteps(p: Prog, objs: Objects, st: State, st1: State, raised: bool)
    requires p.Call? && (st1, raised) == Exec(p.body, objs, State(Entered(st.ctx, p.fields), st.tokens, st.seen))
    ensures (State(st.ctx, st1.tokens, st1.seen), raised) == Exec(p, objs, st)
  {
    hide Entered;
    assert st.(ctx := Entered(st.ctx, p.fields)) == State(Entered(st.ctx, p.fields), st.tokens, st.seen);
  }

  // ---------------------------------------------------------------- what spans are stamped with

  /** The attributes a span can be stamped with; `ConversationId` stands for both of its spellings,
      "tracely.conversation.id" and "session.id". */
  datatype Attr =
    | Env | AgentId | TenantId | ConversationId | TurnIndex | TurnId | UserId | TraceName | Agents
    | Metadata(key: string)

  /** The process-wide defaults given to `init(...)`. */
  datatype Defaults = Defaults(env: Json, agent: Json, tenant: Json)

  function Or(a: Json, b: Json): Json {
    if a.Truthy() then a else b
  }

  function Field(c: Ctx, k: string): Json {
    if c.Some? && k in c.value.plain then c.value.plain[k] else Null
  }

  function IfTruthy(v: Json): Option<Json> {
    if v.Truthy() then Some(v) else None
  }

  /** What a new span carries under each attribute, if anything. */
  function Value(c: Ctx, d: Defaults, a: Attr): Option<Json> {
    match a
    case Env => IfTruthy(Or(Field(c, "env"), d.env))
    case AgentId => IfTruthy(Or(Field(c, "agent"), d.agent))
    case TenantId => IfTruthy(Or(Field(c, "tenant"), d.tenant))
    case ConversationId => IfTruthy(Field(c, "conversation"))
    case TurnIndex => if Field(c, "turn") != Null then Some(Field(c, "turn")) else None
    case TurnId => IfTruthy(Field(c, "turn_id"))
    case UserId => IfTruthy(Field(c, "user"))
    case TraceName => IfTruthy(Field(c, "trace_name"))
    case Agents => IfTruthy(Field(c, "agents"))
    case Metadata(k) =>
      var m := OrNothing(c).metadata;
      if k in m && m[k] != Null then Some(m[k]) else None
  }

  /** The order in which `on_start` gets to the attributes. */
  function Turn(a: Attr): nat {
    match a
    case Env => 0 case AgentId => 1 case TenantId => 2 case ConversationId => 3 case TurnIndex => 4
    case TurnId => 5 case UserId => 6 case TraceName => 7 case Agents => 8 case Metadata(_) => 9
  }

  class SpanAttributes {
    var attrs: map<Attr, Json>

    /** The attributes whose turn came before `n` are as `Value` says, and no others are set. */
    ghost predicate Carries(n: nat, c: Ctx, d: Defaults)
      reads this
    {
      && (forall a :: a in attrs <==> Turn(a) < n && Value(c, d, a).Some?)
      && (forall a :: a in attrs ==> Some(attrs[a]) == Value(c, d, a))
    }

    method Set(a: Attr, v: Option<Json>, ghost c: Ctx, ghost d: Defaults)
      requires !a.Metadata? && Carries(Turn(a), c, d) && Value(c, d, a) == v
      modifies this
      ensures Carries(Turn(a) + 1, c, d)
    {
      if v.Some? {
        attrs := attrs[a := v.value];
      }
    }

    /** `on_start`: the span carries exactly the values of `Value`. */
    method OnStart(c: Ctx, d: Defaults)
      requires attrs == map[]
      modifies this
      ensures forall a :: (a in attrs <==> Value(c, d, a).Some?) && (a in attrs ==> Some(attrs[a]) == Value(c, d, a))
    {
      Set(Env, IfTruthy(Or(Field(c, "env"), d.env)), c, d);
      Set(AgentId, IfTruthy(Or(Field(c, "agent"), d.agent)), c, d);
      Set(TenantId, IfTruthy(Or(Field(c, "tenant"), d.tenant)), c, d);
      if c == None {
        return;
      }
      StampTurn(c, d);
      StampNames(c, d);
      StampMetadata(c, d);
    }

    method StampTurn(c: Ctx, d: Defaults)
      requires Carries(3, c, d)
      modifies this
      ensures Carries(6, c, d)
    {
      hide Carries, Field, IfTruthy;
      Set(ConversationId, IfTruthy(Field(c, "conversation")), c, d);
      Set(TurnIndex, if Field(c, "turn") != Null then Some(Field(c, "turn")) else None, c, d);
      Set(TurnId, IfTruthy(Field(c, "turn_id")), c, d);
    }

    method StampNames(c: Ctx, d: Defaults)
      requires Carries(6, c, d)
      modifies this
      ensures Carries(9, c, d)
    {
      hide Carries, Field, IfTruthy;
      Set(UserId, IfTruthy(Field(c, "user")), c, d);
      Set(TraceName, IfTruthy(Field(c, "trace_name")), c, d);
      Set(Agents, IfTruthy(Field(c, "agents")), c, d);
    }

    method StampMetadata(c: Ctx, d: Defaults)
      requires c.Some? && Carries(9, c, d)
      modifies this
      ensures forall a :: (a in attrs <==> Value(c, d, a).Some?) && (a in attrs ==> Some(attrs[a]) == Value(c, d, a))
    {
      var keys := c.value.metadata.Keys;
      while keys != {}
        invariant keys <= c.value.metadata.Keys
        invariant forall a :: a in attrs <==> Value(c, d, a).Some? && (a.Metadata? ==> a.key !in keys)
        invariant forall a :: a in attrs ==> Some(attrs[a]) == Value(c, d, a)
        decreases keys
      {
        var k :| k in keys;
        if c.value.metadata[k] != Null {
          attrs := attrs[Metadata(k) := c.value.metadata[k]];
        }
        keys := keys - {k};
      }
    }
  }

  /** A span inside nested traces carries the agent of the innermost frame that names one, falling back
      to the process default when that name is empty or no frame gives one. */
  lemma StampedAgent(base: Ctx, frames: seq<Fields>, i: nat, d: Defaults)
    requires i < |frames| && "agent" in frames[i].plain
    requires forall j :: i < j < |frames| ==> "agent" !in frames[j].plain
    ensures Value(Inside(base, frames), d, AgentId) ==
              var v := if frames[i].plain["agent"].Truthy() then frames[i].plain["agent"] else d.agent;
              if v.Truthy() then Some(v) else None
  {
    InnermostWins(base, frames, i, "agent");
  }

  /** The field of `trace(...)` behind each attribute. */
  function FieldFor(a: Attr): string
    requires !a.Metadata?
  {
    match a
    case Env => "env" case AgentId => "agent" case TenantId => "tenant" case ConversationId => "conversation"
    case TurnIndex => "turn" case TurnId => "turn_id" case UserId => "user" case TraceName => "trace_name" case Agents => "agents"
  }

  /** What stands in where a trace names nothing: the process default, for the three attributes that have one. */
  function Fallback(d: Defaults, a: Attr): Json {
    match a case Env => d.env case AgentId => d.agent case TenantId => d.tenant case _ => Null
  }

  /** Every attribute: a field with something in it is stamped as it is, the turn index even when it is zero; an empty one,
      or none, leaves the process default, if that has something in it, or nothing. */
  predicate Stamps(v: Json, fallback: Json, a: Attr, stamped: Option<Json>) {
    if v.Truthy() || (a.TurnIndex? && v != Null) then stamped == Some(v)
    else if fallback.Truthy() then stamped == Some(fallback)
    else stamped == None
  }

  lemma StampedField(base: Ctx, frames: seq<Fields>, i: nat, d: Defaults, a: Attr)
    requires !a.Metadata? && i < |frames| && FieldFor(a) in frames[i].plain
    requires forall j :: i < j < |frames| ==> FieldFor(a) !in frames[j].plain
    ensures Stamps(frames[i].plain[FieldFor(a)], Fallback(d, a), a, Value(Inside(base, frames), d, a))
  {
    InnermostWins(base, frames, i, FieldFor(a));
  }

  /** ... and where no frame sets the field, it is as outside all of them. */
  lemma StampedFromOutside(base: Ctx, frames: seq<Fields>, d: Defaults, a: Attr)
    requires !a.Metadata? && forall j :: 0 <= j < |frames| ==> FieldFor(a) !in frames[j].plain
    ensures Stamps(if base.Some? && FieldFor(a) in base.value.plain then base.value.plain[FieldFor(a)] else Null,
                   Fallback(d, a), a, Value(Inside(base, frames), d, a))
  {
    UnsetComesFromOutside(base, frames, FieldFor(a));
  }

  /** A metadata key is stamped as the innermost frame that sets it set it, unless that was null. */
  lemma StampedMetadata(base: Ctx, frames: seq<Fields>, i: nat, k: string, d: Defaults)
    requires i < |frames| && k in frames[i].metadata
    requires forall j :: i < j < |frames| ==> k !in frames[j].metadata
    ensures Value(Inside(base, frames), d, Metadata(k)) ==
            if frames[i].metadata[k] == Null then None else Some(frames[i].metadata[k])
  {
    InnermostWins(base, frames, i, k);
  }
}
