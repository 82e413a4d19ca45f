/**
  The fromJson body both revisions of the generator emit, described per constructor
  parameter, and what it does: which JSON objects it turns into constructor calls, with
  which arguments, and which it rejects with which exception.
*/
module FieldReads {
  import opened Wrappers
  import opened LangModel
  import opened GeneratedAdapter

  /**
    What the generated reader does for one constructor parameter: the local variable it
    declares (with its boxed type), the switch case that fills it, and -- when the
    parameter is required -- the message of the IOException thrown when it stays null.
  */
  datatype FieldRead = FieldRead(slot: string, boxed: TypeName, c: Case, required: bool, missing: string)

  /** Each case writes its own parameter's variable; variables and case labels are distinct. */
  predicate WellFormed(ps: seq<FieldRead>) {
    && (forall i :: 0 <= i < |ps| ==> ps[i].c.slot == ps[i].slot)
    && (forall i, j :: 0 <= i < j < |ps| ==> ps[i].slot != ps[j].slot && ps[i].c.key != ps[j].c.key)
  }

  function Decls(ps: seq<FieldRead>): (ds: seq<ReaderStmt>)
    ensures OnlyDeclarations(ds)
  {
    seq(|ps|, i requires 0 <= i < |ps| => DeclareSlot(ps[i].boxed, ps[i].slot))
  }

  function CasesOf(ps: seq<FieldRead>): seq<Case> {
    seq(|ps|, i requires 0 <= i < |ps| => ps[i].c)
  }

  /** The null checks, one per required parameter, in parameter order. */
  function Checks(ps: seq<FieldRead>): (cs: seq<ReaderStmt>)
    ensures OnlyChecks(cs)
    decreases |ps|
  {
    if |ps| == 0 then []
    else (if ps[0].required then [RequireSlot(ps[0].slot, ps[0].missing)] else []) + Checks(ps[1..])
  }

  /** One more parameter's null check appended to the checks of the ones before it. */
  lemma {:induction false} ChecksStep(ps: seq<FieldRead>, i: int, checks: seq<ReaderStmt>)
    requires 0 <= i < |ps| && checks + Checks(ps[i..]) == Checks(ps)
    ensures (checks + if ps[i].required then [RequireSlot(ps[i].slot, ps[i].missing)] else []) + Checks(ps[i + 1..]) == Checks(ps)
  {
    assert ps[i..][1..] == ps[i + 1..];
  }

  function Args(ps: seq<FieldRead>): seq<string> {
    seq(|ps|, i requires 0 <= i < |ps| => ps[i].slot)
  }

  /** The whole generated fromJson body for a class whose constructor is read by ps. */
  function Block(cls: string, ps: seq<FieldRead>): seq<ReaderStmt> {
    ReaderPlan(Decls(ps), CasesOf(ps), Checks(ps), cls, Args(ps))
  }

  /** Where each part of the generated body sits. */
  lemma {:induction false} BlockLayout(cls: string, ps: seq<FieldRead>)
    ensures var b := Block(cls, ps);
      && |b| == |ps| + 4 + |Checks(ps)|
      && (forall i :: 0 <= i < |ps| ==> b[i] == DeclareSlot(ps[i].boxed, ps[i].slot))
      && b[|ps|] == BeginObject && b[|ps| + 1] == ReadLoop(CasesOf(ps)) && b[|ps| + 2] == EndObject
      && b[|b| - 1] == ReturnNew(cls, Args(ps))
  {
    var tail := [BeginObject, ReadLoop(CasesOf(ps)), EndObject] + Checks(ps) + [ReturnNew(cls, Args(ps))];
    assert Block(cls, ps) == Decls(ps) + tail;
  }

  /** The variables right after their declarations. */
  function Start(ps: seq<FieldRead>): Slots {
    DeclaredSlots(Decls(ps), map[])
  }

  /** The value each parameter receives from the members ms: the last successful read of its label. */
  function Values(ps: seq<FieldRead>, ms: seq<(string, Json)>): seq<Option<Json>> {
    seq(|ps|, i requires 0 <= i < |ps| => Track(ps[i].c, None, ms))
  }

  /** Parameter i is the first required one whose variable in sl is null. */
  predicate FirstNullSlot(ps: seq<FieldRead>, sl: Slots, i: int) {
    && 0 <= i < |ps| && ps[i].required && SlotValue(sl, ps[i].slot).None?
    && forall j :: 0 <= j < i && ps[j].required ==> SlotValue(sl, ps[j].slot).Some?
  }

  /** The null checks fail at the first parameter when it is required and null, else as the checks of the rest. */
  lemma {:induction false} ChecksHead(ps: seq<FieldRead>, sl: Slots)
    requires |ps| > 0
    ensures FirstMissing(Checks(ps), sl) ==
      if ps[0].required && SlotValue(sl, ps[0].slot).None? then Some(ps[0].missing) else FirstMissing(Checks(ps[1..]), sl)
  {
    var head := if ps[0].required then [RequireSlot(ps[0].slot, ps[0].missing)] else [];
    assert Checks(ps) == head + Checks(ps[1..]);
    if ps[0].required {
      assert (head + Checks(ps[1..]))[1..] == Checks(ps[1..]);
    } else {
      assert head + Checks(ps[1..]) == Checks(ps[1..]);
    }
  }

  /** The first null check that fails is the one of the first required parameter left null. */
  lemma {:induction false} ChecksFirstMissing(ps: seq<FieldRead>, sl: Slots)
    ensures FirstMissing(Checks(ps), sl).None? <==>
      forall i :: 0 <= i < |ps| && ps[i].required ==> SlotValue(sl, ps[i].slot).Some?
    ensures FirstMissing(Checks(ps), sl).Some? ==>
      exists i :: FirstNullSlot(ps, sl, i) && FirstMissing(Checks(ps), sl).value == ps[i].missing
    decreases |ps|
  {
    if |ps| > 0 {
      var rest := ps[1..];
      ChecksFirstMissing(rest, sl);
      assert forall j :: 1 <= j < |ps| ==> ps[j] == rest[j - 1];
      ChecksHead(ps, sl);
      if ps[0].required && SlotValue(sl, ps[0].slot).None? {
        assert FirstNullSlot(ps, sl, 0);
        return;
      }
      if FirstMissing(Checks(rest), sl).Some? {
        var i :| FirstNullSlot(rest, sl, i) && FirstMissing(Checks(rest), sl).value == rest[i].missing;
        assert FirstNullSlot(ps, sl, i + 1);
      }
    }
  }

  /** With distinct labels, the switch sends a parameter's label to that parameter's case. */
  lemma {:induction false} DispatchOwnCase(ps: seq<FieldRead>, i: int)
    requires WellFormed(ps) && 0 <= i < |ps|
    ensures Dispatch(CasesOf(ps), ps[i].c.key) == Some(ps[i].c)
  {
    var cs := CasesOf(ps);
    var r := Dispatch(cs, ps[i].c.key);
    assert cs[i].key == ps[i].c.key;
    var j :| 0 <= j < |cs| && cs[j] == r.value && r.value.key == ps[i].c.key
      && forall k :: 0 <= k < j ==> cs[k].key != ps[i].c.key;
    assert cs[j] == ps[j].c;
    assert j == i;
  }

  /** A parameter's variable after a successful loop holds its value per Values. */
  lemma {:induction false} LoopValueAt(ps: seq<FieldRead>, ms: seq<(string, Json)>, sl: Slots, i: int)
    requires WellFormed(ps) && 0 <= i < |ps|
    requires Loop(CasesOf(ps), Start(ps), ms) == Success(sl)
    ensures SlotValue(sl, ps[i].slot) == Values(ps, ms)[i]
  {
    var cs := CasesOf(ps);
    DispatchOwnCase(ps, i);
    assert Decls(ps)[i].slot == ps[i].slot;
    assert SlotValue(Start(ps), ps[i].slot) == None;
    forall j | 0 <= j < |cs| && cs[j].slot == ps[i].c.slot
      ensures cs[j] == ps[i].c
    {
      assert cs[j] == ps[j].c;
    }
    LoopTracks(cs, ps[i].c, Start(ps), ms, sl);
  }

  /** After a successful loop every parameter's variable holds its value per Values. */
  lemma {:induction false} LoopValues(ps: seq<FieldRead>, ms: seq<(string, Json)>, sl: Slots)
    requires WellFormed(ps)
    requires Loop(CasesOf(ps), Start(ps), ms) == Success(sl)
    ensures forall i :: 0 <= i < |ps| ==> SlotValue(sl, ps[i].slot) == Values(ps, ms)[i]
  {
    forall i | 0 <= i < |ps|
      ensures SlotValue(sl, ps[i].slot) == Values(ps, ms)[i]
    {
      LoopValueAt(ps, ms, sl, i);
    }
  }

  /** The generated fromJson rejects anything but an object at beginObject. */
  lemma {:induction false} BlockNotObject(cls: string, ps: seq<FieldRead>, input: Json)
    requires !input.JObject?
    ensures FromJson(Block(cls, ps), input) == Threw(JsonDataException("BEGIN_OBJECT"))
  {
    RunReaderPlan(Decls(ps), CasesOf(ps), Checks(ps), cls, Args(ps), input);
  }

  /** A read the reader refuses is rethrown. */
  lemma {:induction false} BlockLoopFails(cls: string, ps: seq<FieldRead>, ms: seq<(string, Json)>)
    requires Loop(CasesOf(ps), Start(ps), ms).Failure?
    ensures FromJson(Block(cls, ps), JObject(ms)) == Threw(Loop(CasesOf(ps), Start(ps), ms).error)
  {
    RunReaderPlan(Decls(ps), CasesOf(ps), Checks(ps), cls, Args(ps), JObject(ms));
  }

  /** Whether every required parameter receives a value from ms. */
  predicate AllRequiredSet(ps: seq<FieldRead>, ms: seq<(string, Json)>) {
    forall i :: 0 <= i < |ps| && ps[i].required ==> Values(ps, ms)[i].Some?
  }

  /** When the loop succeeds and every required parameter is set, the constructor receives the values. */
  lemma {:induction false} BlockConstructs(cls: string, ps: seq<FieldRead>, ms: seq<(string, Json)>)
    requires WellFormed(ps)
    requires Loop(CasesOf(ps), Start(ps), ms).Success? && AllRequiredSet(ps, ms)
    ensures FromJson(Block(cls, ps), JObject(ms)) == Constructed(cls, Values(ps, ms))
  {
    RunReaderPlan(Decls(ps), CasesOf(ps), Checks(ps), cls, Args(ps), JObject(ms));
    var sl := Loop(CasesOf(ps), Start(ps), ms).value;
    LoopValues(ps, ms, sl);
    ChecksFirstMissing(ps, sl);
    var args := seq(|Args(ps)|, i requires 0 <= i < |Args(ps)| => SlotValue(sl, Args(ps)[i]));
    assert args == Values(ps, ms);
  }

  /** Parameter i is the first required one ms leaves without a value. */
  predicate FirstUnset(ps: seq<FieldRead>, ms: seq<(string, Json)>, i: int) {
    && 0 <= i < |ps| && ps[i].required && Values(ps, ms)[i].None?
    && forall j :: 0 <= j < i && ps[j].required ==> Values(ps, ms)[j].Some?
  }

  /** When the loop succeeds but a required parameter stays null, the first such one's IOException is thrown. */
  lemma {:induction false} BlockMissing(cls: string, ps: seq<FieldRead>, ms: seq<(string, Json)>)
    requires WellFormed(ps)
    requires Loop(CasesOf(ps), Start(ps), ms).Success? && !AllRequiredSet(ps, ms)
    ensures exists i :: FirstUnset(ps, ms, i) && FromJson(Block(cls, ps), JObject(ms)) == Threw(IOException(ps[i].missing))
  {
    RunReaderPlan(Decls(ps), CasesOf(ps), Checks(ps), cls, Args(ps), JObject(ms));
    var sl := Loop(CasesOf(ps), Start(ps), ms).value;
    LoopValues(ps, ms, sl);
    ChecksFirstMissing(ps, sl);
    var i :| FirstNullSlot(ps, sl, i) && FirstMissing(Checks(ps), sl).value == ps[i].missing;
    assert FirstUnset(ps, ms, i);
  }

  /** An object member whose name is no parameter's label does not change the outcome. */
  lemma {:induction false} BlockIgnoresUnknown(cls: string, ps: seq<FieldRead>, a: seq<(string, Json)>, k: string, v: Json,
                            b: seq<(string, Json)>)
    requires forall i :: 0 <= i < |ps| ==> ps[i].c.key != k
    ensures FromJson(Block(cls, ps), JObject(a + [(k, v)] + b)) == FromJson(Block(cls, ps), JObject(a + b))
  {
    assert forall i :: 0 <= i < |CasesOf(ps)| ==> CasesOf(ps)[i].key != k;
    LoopSkipsUnknown(CasesOf(ps), Start(ps), a, k, v, b);
    RunReaderPlan(Decls(ps), CasesOf(ps), Checks(ps), cls, Args(ps), JObject(a + [(k, v)] + b));
    RunReaderPlan(Decls(ps), CasesOf(ps), Checks(ps), cls, Args(ps), JObject(a + b));
  }

  /** A member appended with a parameter's label decides that parameter's value: the last one wins. */
  lemma {:induction false} TrackLastWins(c: Case, cur: Option<Json>, ms: seq<(string, Json)>, v: Json)
    requires Read(c.call, c.nullGuard, v).Success?
    ensures Track(c, cur, ms + [(c.key, v)]) == Read(c.call, c.nullGuard, v).value
    decreases |ms|
  {
    if |ms| == 0 {
      assert ms + [(c.key, v)] == [(c.key, v)];
      assert [(c.key, v)][1..] == [];
    } else {
      assert (ms + [(c.key, v)])[1..] == ms[1..] + [(c.key, v)];
      var next :=
        if ms[0].0 == c.key && Read(c.call, c.nullGuard, ms[0].1).Success?
        then Read(c.call, c.nullGuard, ms[0].1).value else cur;
      TrackLastWins(c, next, ms[1..], v);
    }
  }

  /** A label that occurs once gives its parameter the value read from that member. */
  lemma {:induction false} TrackUnique(c: Case, cur: Option<Json>, ms: seq<(string, Json)>, i: int)
    requires 0 <= i < |ms| && ms[i].0 == c.key
    requires forall j :: 0 <= j < |ms| && j != i ==> ms[j].0 != c.key
    requires Read(c.call, c.nullGuard, ms[i].1).Success?
    ensures Track(c, cur, ms) == Read(c.call, c.nullGuard, ms[i].1).value
    decreases |ms|
  {
    assert forall j :: 1 <= j < |ms| ==> ms[j] == ms[1..][j - 1];
    if i == 0 {
      TrackAbsent(c, Read(c.call, c.nullGuard, ms[0].1).value, ms[1..]);
    } else {
      TrackUnique(c, cur, ms[1..], i - 1);
    }
  }

  /** The object a writer produces for these labels and values. */
  function Pairs(ps: seq<FieldRead>, vals: seq<Json>): seq<(string, Json)>
    requires |vals| == |ps|
  {
    seq(|ps|, i requires 0 <= i < |ps| => (ps[i].c.key, vals[i]))
  }

  lemma {:induction false} LoopOverPairs(ps: seq<FieldRead>, vals: seq<Json>, s: Slots, k: nat)
    requires WellFormed(ps) && |vals| == |ps| && k <= |ps|
    requires forall i :: 0 <= i < |ps| ==> Read(ps[i].c.call, ps[i].c.nullGuard, vals[i]).Success?
    ensures Loop(CasesOf(ps), s, Pairs(ps, vals)[k..]).Success?
    decreases |ps| - k
  {
    var ms := Pairs(ps, vals)[k..];
    if k < |ps| {
      DispatchOwnCase(ps, k);
      assert ms[0] == (ps[k].c.key, vals[k]);
      assert ms[1..] == Pairs(ps, vals)[k + 1..];
      var s1 := s[ps[k].c.slot := Read(ps[k].c.call, ps[k].c.nullGuard, vals[k]).value];
      assert LoopStep(CasesOf(ps), s, ms[0]) == Success(s1);
      LoopOverPairs(ps, vals, s1, k + 1);
    }
  }

  /**
    Reading back: an object holding, under each parameter's label, a value its read accepts
    constructs the class with exactly the values those reads produce, in parameter order.
  */
  lemma {:induction false} ReadsBack(cls: string, ps: seq<FieldRead>, vals: seq<Json>)
    requires WellFormed(ps) && |vals| == |ps|
    requires forall i :: 0 <= i < |ps| ==> Read(ps[i].c.call, ps[i].c.nullGuard, vals[i]).Success?
    requires forall i :: 0 <= i < |ps| && ps[i].required ==> Read(ps[i].c.call, ps[i].c.nullGuard, vals[i]).value.Some?
    ensures FromJson(Block(cls, ps), JObject(Pairs(ps, vals)))
         == Constructed(cls, seq(|ps|, i requires 0 <= i < |ps| => Read(ps[i].c.call, ps[i].c.nullGuard, vals[i]).value))
  {
    var ms := Pairs(ps, vals);
    LoopOverPairs(ps, vals, Start(ps), 0);
    assert ms[0..] == ms;
    forall i | 0 <= i < |ps|
      ensures Values(ps, ms)[i] == Read(ps[i].c.call, ps[i].c.nullGuard, vals[i]).value
    {
      TrackUnique(ps[i].c, None, ms, i);
    }
    assert AllRequiredSet(ps, ms);
    BlockConstructs(cls, ps, ms);
  }
}
