/**
  The code the generator emits, as abstract statements, and what that code does when it runs.

  A generated fromJson body is a sequence of ReaderStmt; FromJson interprets it over an
  abstract JSON value. A generated toJson body is a sequence of WriterStmt; ToJson
  interprets it over an abstract instance and yields the tokens handed to the JsonWriter.
  What the streaming JsonReader/JsonWriter and the delegated adapters do is reduced to
  Read and to the tokens below.
*/
module GeneratedAdapter {
  import opened Wrappers
  import opened LangModel

  datatype Json =
    | JNull
    | JBool(b: bool)
    | JNum(n: int)
    | JStr(s: string)
    | JArray(items: seq<Json>)
    | JObject(members: seq<(string, Json)>)

  /** How one case of the generated switch reads its value. */
  datatype ReadCall =
    | NextBoolean                  // reader.nextBoolean()
    | NextInt                      // reader.nextInt()
    | NextLong                     // reader.nextLong()
    | NextDouble                   // reader.nextDouble()
    | ShortFromInt                 // (short)reader.nextInt()
    | FloatFromDouble              // (float)reader.nextDouble()
    | NextString                   // reader.nextString()
    | ViaAdapter(typeExpr: string) // moshi.adapter(<typeExpr>).fromJson(reader)

  /**
    `case "<key>": <slot> = <read>; break;` -- with nullGuard the read is
    `(reader.peek() == NULL) ? reader.nextNull() : <Boxed>.valueOf(<read>)`.
  */
  datatype Case = Case(key: string, slot: string, call: ReadCall, nullGuard: bool)

  datatype ReaderStmt =
      /** `<BoxedType> <slot> = null;` */
    | DeclareSlot(boxedType: TypeName, slot: string)
      /** `reader.beginObject();` */
    | BeginObject
      /** `while (reader.hasNext()) { switch (reader.nextName()) { <cases> default: reader.skipValue(); } }` */
    | ReadLoop(cases: seq<Case>)
      /** `reader.endObject();` */
    | EndObject
      /** `if (<slot> == null) { throw new IOException("<message>"); }` */
    | RequireSlot(slot: string, message: string)
      /** `return new <className>(<args joined by ", ">);` */
    | ReturnNew(className: string, args: seq<string>)

  datatype Exception =
    | IOException(message: string)
      /** the streaming reader met a token other than the one it expected */
    | JsonDataException(expected: string)
    | NullPointerException

  datatype ReadOutcome =
    | Constructed(className: string, args: seq<Option<Json>>)
    | Threw(e: Exception)
    | NoReturn

  /** Local variables of the generated fromJson; None is Java's null. */
  type Slots = map<string, Option<Json>>

  predicate InInt(n: int) { -0x8000_0000 <= n < 0x8000_0000 }

  predicate InLong(n: int) { -0x8000_0000_0000_0000 <= n < 0x8000_0000_0000_0000 }

  /** Java's (short) cast: keep the low 16 bits, read them as a signed value. */
  function ToShort(n: int): (r: int)
    ensures -0x8000 <= r < 0x8000
    ensures (r - n) % 0x1_0000 == 0
  {
    (n + 0x8000) % 0x1_0000 - 0x8000
  }

  /** One read performed by a case: Success(None) stores null, Success(Some(v)) stores v. */
  function Read(call: ReadCall, nullGuard: bool, v: Json): Result<Option<Json>, Exception> {
    if nullGuard && v == JNull then Success(None)
    else
      match call
      case NextBoolean => if v.JBool? then Success(Some(v)) else Failure(JsonDataException("a boolean"))
      case NextInt => if v.JNum? && InInt(v.n) then Success(Some(v)) else Failure(JsonDataException("an int"))
      case NextLong => if v.JNum? && InLong(v.n) then Success(Some(v)) else Failure(JsonDataException("a long"))
      case NextDouble => if v.JNum? then Success(Some(v)) else Failure(JsonDataException("a double"))
      case ShortFromInt =>
        if v.JNum? && InInt(v.n) then Success(Some(JNum(ToShort(v.n)))) else Failure(JsonDataException("an int"))
      case FloatFromDouble => if v.JNum? then Success(Some(v)) else Failure(JsonDataException("a double"))
      case NextString => if v.JStr? then Success(Some(v)) else Failure(JsonDataException("a string"))
      case ViaAdapter(_) => if v == JNull then Success(None) else Success(Some(v))
  }

  /** The case a Java string switch selects for a name: the first with that label, if any. */
  function Dispatch(cases: seq<Case>, name: string): (r: Option<Case>)
    ensures r.None? <==> forall i :: 0 <= i < |cases| ==> cases[i].key != name
    ensures r.Some? ==>
      exists i :: 0 <= i < |cases| && cases[i] == r.value && r.value.key == name
        && forall j :: 0 <= j < i ==> cases[j].key != name
  {
    if |cases| == 0 then None
    else if cases[0].key == name then Some(cases[0])
    else
      var r := Dispatch(cases[1..], name);
      assert forall j :: 1 <= j < |cases| ==> cases[j] == cases[1..][j - 1];
      r
  }

  /** One iteration of the generated while loop, for the member (name, value). */
  function LoopStep(cases: seq<Case>, slots: Slots, m: (string, Json)): Result<Slots, Exception> {
    match Dispatch(cases, m.0)
    case None => Success(slots)
    case Some(c) =>
      match Read(c.call, c.nullGuard, m.1)
      case Failure(e) => Failure(e)
      case Success(v) => Success(slots[c.slot := v])
  }

  /** The generated while loop over the members of the object, in order. */
  function Loop(cases: seq<Case>, slots: Slots, ms: seq<(string, Json)>): Result<Slots, Exception>
    decreases |ms|
  {
    if |ms| == 0 then Success(slots)
    else
      match LoopStep(cases, slots, ms[0])
      case Failure(e) => Failure(e)
      case Success(s) => Loop(cases, s, ms[1..])
  }

  datatype ReaderState = ReaderState(slots: Slots, pending: seq<(string, Json)>)

  datatype Flow = Continue(state: ReaderState) | Stop(outcome: ReadOutcome)

  function SlotValue(slots: Slots, x: string): Option<Json> {
    if x in slots then slots[x] else None
  }

  function ExecStmt(s: ReaderStmt, input: Json, st: ReaderState): Flow {
    match s
    case DeclareSlot(_, x) => Continue(st.(slots := st.slots[x := None]))
    case BeginObject =>
      if input.JObject? then Continue(st.(pending := input.members))
      else Stop(Threw(JsonDataException("BEGIN_OBJECT")))
    case ReadLoop(cases) =>
      (match Loop(cases, st.slots, st.pending)
       case Failure(e) => Stop(Threw(e))
       case Success(sl) => Continue(ReaderState(sl, [])))
    case EndObject =>
      if st.pending == [] then Continue(st) else Stop(Threw(JsonDataException("END_OBJECT")))
    case RequireSlot(x, msg) =>
      if SlotValue(st.slots, x).Some? then Continue(st) else Stop(Threw(IOException(msg)))
    case ReturnNew(cls, args) =>
      Stop(Constructed(cls, seq(|args|, i requires 0 <= i < |args| => SlotValue(st.slots, args[i]))))
  }

  function Exec(stmts: seq<ReaderStmt>, input: Json, st: ReaderState): Flow
    decreases |stmts|
  {
    if |stmts| == 0 then Continue(st)
    else
      match ExecStmt(stmts[0], input, st)
      case Stop(o) => Stop(o)
      case Continue(st') => Exec(stmts[1..], input, st')
  }

  function Then(f: Flow, rest: seq<ReaderStmt>, input: Json): Flow {
    match f
    case Stop(o) => Stop(o)
    case Continue(st) => Exec(rest, input, st)
  }

  /** What the generated fromJson does with the JSON value it is given. */
  function FromJson(stmts: seq<ReaderStmt>, input: Json): ReadOutcome {
    match Exec(stmts, input, ReaderState(map[], []))
    case Continue(_) => NoReturn
    case Stop(o) => o
  }

  /** Running two blocks one after the other is running their concatenation. */
  lemma {:induction false} ExecAppend(a: seq<ReaderStmt>, b: seq<ReaderStmt>, input: Json, st: ReaderState)
    ensures Exec(a + b, input, st) == Then(Exec(a, input, st), b, input)
    decreases |a|
  {
    if |a| == 0 {
      assert a + b == b;
    } else {
      assert (a + b)[0] == a[0];
      assert (a + b)[1..] == a[1..] + b;
      match ExecStmt(a[0], input, st)
      case Stop(o) =>
      case Continue(st') => ExecAppend(a[1..], b, input, st');
    }
  }

  // ---- The shape every generated fromJson has ----

  predicate OnlyDeclarations(ds: seq<ReaderStmt>) {
    forall i :: 0 <= i < |ds| ==> ds[i].DeclareSlot?
  }

  predicate OnlyChecks(cs: seq<ReaderStmt>) {
    forall i :: 0 <= i < |cs| ==> cs[i].RequireSlot?
  }

  /** The slots after the declarations: every declared slot holds null. */
  function DeclaredSlots(ds: seq<ReaderStmt>, slots: Slots): (r: Slots)
    requires OnlyDeclarations(ds)
    ensures forall i :: 0 <= i < |ds| ==> ds[i].slot in r && r[ds[i].slot] == None
    ensures forall x :: x in slots ==> x in r
    ensures forall x :: x in r && x !in slots ==> exists i :: 0 <= i < |ds| && ds[i].slot == x
    ensures forall x :: x in slots && (forall i :: 0 <= i < |ds| ==> ds[i].slot != x) ==> r[x] == slots[x]
    decreases |ds|
  {
    if |ds| == 0 then slots
    else
      var r := DeclaredSlots(ds[1..], slots[ds[0].slot := None]);
      assert forall i :: 1 <= i < |ds| ==> ds[i] == ds[1..][i - 1];
      r
  }

  /** The message of the first check whose slot is still null, if any. */
  function FirstMissing(cs: seq<ReaderStmt>, slots: Slots): (r: Option<string>)
    requires OnlyChecks(cs)
    ensures r.None? <==> forall i :: 0 <= i < |cs| ==> SlotValue(slots, cs[i].slot).Some?
    ensures r.Some? ==>
      exists i :: 0 <= i < |cs| && SlotValue(slots, cs[i].slot).None? && r.value == cs[i].message
        && forall j :: 0 <= j < i ==> SlotValue(slots, cs[j].slot).Some?
    decreases |cs|
  {
    if |cs| == 0 then None
    else if SlotValue(slots, cs[0].slot).None? then Some(cs[0].message)
    else
      var r := FirstMissing(cs[1..], slots);
      assert forall j :: 1 <= j < |cs| ==> cs[j] == cs[1..][j - 1];
      r
  }

  /** Declarations, the read loop between beginObject and endObject, the checks, the return. */
  function ReaderPlan(decls: seq<ReaderStmt>, cases: seq<Case>, checks: seq<ReaderStmt>, cls: string, args: seq<string>)
    : seq<ReaderStmt>
  {
    decls + [BeginObject, ReadLoop(cases), EndObject] + checks + [ReturnNew(cls, args)]
  }

  /**
    What a reader of that shape does, stated without statements: a non-object fails,
    a failing read fails, then the first unset required slot fails, else the constructor
    receives the slots named by args, by position.
  */
  function PlanOutcome(decls: seq<ReaderStmt>, cases: seq<Case>, checks: seq<ReaderStmt>, cls: string,
                       args: seq<string>, input: Json): ReadOutcome
    requires OnlyDeclarations(decls) && OnlyChecks(checks)
  {
    if !input.JObject? then Threw(JsonDataException("BEGIN_OBJECT"))
    else
      match Loop(cases, DeclaredSlots(decls, map[]), input.members)
      case Failure(e) => Threw(e)
      case Success(sl) =>
        match FirstMissing(checks, sl)
        case Some(msg) => Threw(IOException(msg))
        case None => Constructed(cls, seq(|args|, i requires 0 <= i < |args| => SlotValue(sl, args[i])))
  }

  lemma {:induction false} ExecDeclarations(ds: seq<ReaderStmt>, input: Json, st: ReaderState)
    requires OnlyDeclarations(ds)
    ensures Exec(ds, input, st) == Continue(st.(slots := DeclaredSlots(ds, st.slots)))
    decreases |ds|
  {
    if |ds| > 0 {
      ExecDeclarations(ds[1..], input, st.(slots := st.slots[ds[0].slot := None]));
    }
  }

  lemma {:induction false} ExecChecks(cs: seq<ReaderStmt>, input: Json, st: ReaderState)
    requires OnlyChecks(cs)
    ensures Exec(cs, input, st) ==
      match FirstMissing(cs, st.slots)
      case Some(msg) => Stop(Threw(IOException(msg)))
      case None => Continue(st)
    decreases |cs|
  {
    if |cs| > 0 && SlotValue(st.slots, cs[0].slot).Some? {
      ExecChecks(cs[1..], input, st);
    }
  }

  /** The generated fromJson behaves as PlanOutcome says. */
  lemma {:induction false} RunReaderPlan(decls: seq<ReaderStmt>, cases: seq<Case>, checks: seq<ReaderStmt>, cls: string,
                      args: seq<string>, input: Json)
    requires OnlyDeclarations(decls) && OnlyChecks(checks)
    ensures FromJson(ReaderPlan(decls, cases, checks, cls, args), input)
         == PlanOutcome(decls, cases, checks, cls, args, input)
  {
    var st0 := ReaderState(map[], []);
    var mid: seq<ReaderStmt> := [BeginObject, ReadLoop(cases), EndObject];
    var tail := checks + [ReturnNew(cls, args)];
    assert ReaderPlan(decls, cases, checks, cls, args) == decls + (mid + tail);
    ExecAppend(decls, mid + tail, input, st0);
    ExecDeclarations(decls, input, st0);
    var st1 := ReaderState(DeclaredSlots(decls, map[]), []);
    ExecAppend(mid, tail, input, st1);
    ExecObject(cases, input, st1);
    if input.JObject? {
      match Loop(cases, st1.slots, input.members)
      case Failure(e) =>
      case Success(sl) =>
        var st3 := ReaderState(sl, []);
        ExecAppend(checks, [ReturnNew(cls, args)], input, st3);
        ExecChecks(checks, input, st3);
    }
  }

  /** beginObject, the read loop and endObject: the slots after reading every member, or the first failure. */
  lemma {:induction false} ExecObject(cases: seq<Case>, input: Json, st: ReaderState)
    ensures Exec([BeginObject, ReadLoop(cases), EndObject], input, st) ==
      if !input.JObject? then Stop(Threw(JsonDataException("BEGIN_OBJECT")))
      else
        match Loop(cases, st.slots, input.members)
        case Failure(e) => Stop(Threw(e))
        case Success(sl) => Continue(ReaderState(sl, []))
  {
    var mid: seq<ReaderStmt> := [BeginObject, ReadLoop(cases), EndObject];
    if input.JObject? {
      var st2 := st.(pending := input.members);
      assert mid[1..] == [ReadLoop(cases), EndObject] && mid[1..][1..] == [EndObject] && [EndObject][1..] == [];
      assert Exec(mid, input, st) == Exec(mid[1..], input, st2);
      match Loop(cases, st2.slots, st2.pending)
      case Failure(e) =>
      case Success(sl) =>
        assert Exec(mid[1..], input, st2) == Exec([EndObject], input, ReaderState(sl, []));
    }
  }

  // ---- Properties of the read loop ----

  lemma {:induction false} LoopAppend(cases: seq<Case>, s: Slots, a: seq<(string, Json)>, b: seq<(string, Json)>)
    ensures Loop(cases, s, a + b) ==
      match Loop(cases, s, a)
      case Failure(e) => Failure(e)
      case Success(s') => Loop(cases, s', b)
    decreases |a|
  {
    if |a| == 0 {
      assert a + b == b;
    } else {
      assert (a + b)[0] == a[0];
      assert (a + b)[1..] == a[1..] + b;
      match LoopStep(cases, s, a[0])
      case Failure(e) =>
      case Success(s1) => LoopAppend(cases, s1, a[1..], b);
    }
  }

  /** A member whose name no case carries is skipped: the loop runs as if it were absent. */
  lemma {:induction false} LoopSkipsUnknown(cases: seq<Case>, s: Slots, a: seq<(string, Json)>, k: string, v: Json,
                         b: seq<(string, Json)>)
    requires forall i :: 0 <= i < |cases| ==> cases[i].key != k
    ensures Loop(cases, s, a + [(k, v)] + b) == Loop(cases, s, a + b)
  {
    LoopAppend(cases, s, a + [(k, v)], b);
    LoopAppend(cases, s, a, [(k, v)]);
    LoopAppend(cases, s, a, b);
    match Loop(cases, s, a)
    case Failure(e) =>
    case Success(s') =>
      assert Loop(cases, s', [(k, v)]) == Success(s') by {
        assert [(k, v)][1..] == [];
      }
  }

  /**
    The value a case leaves in its slot after the members ms, starting from cur: the
    read of the last member carrying its label, or cur when there is none.
  */
  function Track(c: Case, cur: Option<Json>, ms: seq<(string, Json)>): Option<Json>
    decreases |ms|
  {
    if |ms| == 0 then cur
    else
      var next :=
        if ms[0].0 == c.key && Read(c.call, c.nullGuard, ms[0].1).Success?
        then Read(c.call, c.nullGuard, ms[0].1).value else cur;
      Track(c, next, ms[1..])
  }

  lemma {:induction false} TrackAbsent(c: Case, cur: Option<Json>, ms: seq<(string, Json)>)
    requires forall i :: 0 <= i < |ms| ==> ms[i].0 != c.key
    ensures Track(c, cur, ms) == cur
    decreases |ms|
  {
    if |ms| > 0 {
      assert forall i :: 1 <= i < |ms| ==> ms[i] == ms[1..][i - 1];
      TrackAbsent(c, cur, ms[1..]);
    }
  }

  /**
    When c is the case its label dispatches to and no other case writes its slot, a
    successful loop leaves in that slot exactly what Track says.
  */
  lemma {:induction false} LoopTracks(cases: seq<Case>, c: Case, s: Slots, ms: seq<(string, Json)>, r: Slots)
    requires Dispatch(cases, c.key) == Some(c)
    requires forall j :: 0 <= j < |cases| && cases[j].slot == c.slot ==> cases[j] == c
    requires Loop(cases, s, ms) == Success(r)
    ensures SlotValue(r, c.slot) == Track(c, SlotValue(s, c.slot), ms)
    decreases |ms|
  {
    if |ms| > 0 {
      match LoopStep(cases, s, ms[0])
      case Failure(e) =>
      case Success(s1) =>
        assert Loop(cases, s1, ms[1..]) == Success(r);
        if ms[0].0 == c.key {
          assert SlotValue(s1, c.slot) == Read(c.call, c.nullGuard, ms[0].1).value;
        } else {
          match Dispatch(cases, ms[0].0)
          case None =>
          case Some(d) =>
            assert d.slot != c.slot;
        }
        LoopTracks(cases, c, s1, ms[1..], r);
    }
  }

  // ---- The generated toJson ----

  datatype WriterStmt =
      /** `if (value == null) { writer.nullValue(); return; }` */
    | NullGuard
      /** `writer.beginObject();` */
    | WriterBeginObject
      /** `writer.name("<name>");` */
    | WriteName(name: string)
      /** `writer.value(value.<accessor>);` */
    | WriteValue(accessor: string)
      /** `{ final JsonAdapter<T> _adapter = moshi.adapter(<typeExpr>); _adapter.toJson(writer, value.<accessor>); }` */
    | WriteDelegated(typeExpr: string, accessor: string)
      /** `writer.endObject();` */
    | WriterEndObject
      /** `moshi.nextAdapter(factory, type, annotations).toJson(writer, value);` */
    | DelegateToNext

  /** What reaches the JsonWriter. */
  datatype Token =
    | TNull
    | TBeginObject
    | TName(name: string)
    | TValue(v: Json)
    | TAdapterValue(typeExpr: string, v: Json)
    | TEndObject
      /** the whole value was handed to the next adapter */
    | TNextAdapter

  /** An instance, seen through the accessor expressions the writer uses on it. */
  type Instance = map<string, Json>

  function Access(inst: Instance, accessor: string): Json {
    if accessor in inst then inst[accessor] else JNull
  }

  /** The tokens one statement other than NullGuard writes. */
  function StmtTokens(s: WriterStmt, value: Option<Instance>): Result<seq<Token>, Exception> {
    match s
    case NullGuard => Success([])
    case WriterBeginObject => Success([TBeginObject])
    case WriteName(n) => Success([TName(n)])
    case WriteValue(acc) =>
      if value.None? then Failure(NullPointerException) else Success([TValue(Access(value.value, acc))])
    case WriteDelegated(t, acc) =>
      if value.None? then Failure(NullPointerException) else Success([TAdapterValue(t, Access(value.value, acc))])
    case WriterEndObject => Success([TEndObject])
    case DelegateToNext => Success([TNextAdapter])
  }

  /** What the generated toJson writes for value (None is a null reference). */
  function ToJson(stmts: seq<WriterStmt>, value: Option<Instance>): Result<seq<Token>, Exception>
    decreases |stmts|
  {
    if |stmts| == 0 then Success([])
    else if stmts[0].NullGuard? then
      if value.None? then Success([TNull]) else ToJson(stmts[1..], value)
    else
      match StmtTokens(stmts[0], value)
      case Failure(e) => Failure(e)
      case Success(h) =>
        match ToJson(stmts[1..], value)
        case Failure(e) => Failure(e)
        case Success(t) => Success(h + t)
  }

  /** Running two writer blocks in turn, when the first has no early return. */
  lemma {:induction false} ToJsonAppend(a: seq<WriterStmt>, b: seq<WriterStmt>, inst: Instance)
    requires forall i :: 0 <= i < |a| ==> !a[i].NullGuard?
    ensures ToJson(a + b, Some(inst)) ==
      match ToJson(a, Some(inst))
      case Failure(e) => Failure(e)
      case Success(ta) => (match ToJson(b, Some(inst)) case Failure(e) => Failure(e) case Success(tb) => Success(ta + tb))
    decreases |a|
  {
    if |a| == 0 {
      assert a + b == b;
      match ToJson(b, Some(inst))
      case Failure(e) =>
      case Success(tb) => assert [] + tb == tb;
    } else {
      assert (a + b)[0] == a[0];
      assert (a + b)[1..] == a[1..] + b;
      ToJsonAppend(a[1..], b, inst);
      match StmtTokens(a[0], Some(inst))
      case Failure(e) =>
      case Success(h) =>
        match ToJson(a[1..], Some(inst))
        case Failure(e) =>
        case Success(ta) =>
          match ToJson(b, Some(inst))
          case Failure(e) =>
          case Success(tb) => assert h + (ta + tb) == (h + ta) + tb;
    }
  }

  /** The JSON a value token carries: a delegated adapter is taken to write the value it is given. */
  function TokenJson(t: Token): Json {
    match t
    case TValue(v) => v
    case TAdapterValue(_, v) => v
    case _ => JNull
  }

  /** The members a flat `name value name value ...` token stream stands for. */
  function MembersOf(ts: seq<Token>): seq<(string, Json)>
    decreases |ts|
  {
    if |ts| < 2 then []
    else (if ts[0].TName? then [(ts[0].name, TokenJson(ts[1]))] else []) + MembersOf(ts[2..])
  }

  /** The JSON text a generated writer's tokens stand for: null, or one flat object. */
  function Written(ts: seq<Token>): Option<Json> {
    if ts == [TNull] then Some(JNull)
    else if |ts| >= 2 && ts[0] == TBeginObject && ts[|ts| - 1] == TEndObject then Some(JObject(MembersOf(ts[1..|ts| - 1])))
    else None
  }
}
