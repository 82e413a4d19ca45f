/**
  AdapterGenerator.kt: the Kotlin revision of the adapter generator. For a class it emits
  a fromJson body (one local per constructor parameter, a switch on JSON names, null
  checks, the constructor call), a toJson body (field by field, or a delegation to the
  next adapter) and, on request, a one-class factory.
*/
module AdapterGeneratorKt {
  import opened Wrappers
  import opened LangModel
  import opened GeneratedAdapter
  import opened FieldReads
  import Cls = AnnotatedClassKt
  import FactoryGenerator

  const IntellijNullable: string := "org.jetbrains.annotations.Nullable"
  const AndroidNullable: string := "android.support.annotation.Nullable"

  /** isNullable: scan the annotation mirrors; either Nullable marker answers true. */
  function IsNullable(anns: seq<string>): (b: bool)
    ensures b <==> exists i :: 0 <= i < |anns| && (anns[i] == IntellijNullable || anns[i] == AndroidNullable)
    decreases |anns|
  {
    if |anns| == 0 then false
    else if anns[0] == IntellijNullable || anns[0] == AndroidNullable then true
    else
      assert forall i :: 1 <= i < |anns| ==> anns[i] == anns[1..][i - 1];
      IsNullable(anns[1..])
  }

  /** getJsonFieldName: the @Json name when there is one, else the simple name. */
  function JsonFieldName(f: VarElement): string {
    match f.jsonName
    case Some(n) => n
    case None => f.name
  }

  // ---- makeType ----

  const NewParameterizedType: string := "com.squareup.moshi.Types.newParameterizedType("

  /** makeType: the java.lang.reflect.Type expression the delegated adapters are requested with. */
  function TypeExpr(t: TypeName): string
    decreases t
  {
    match t
    case Parameterized(raw, args) =>
      NewParameterizedType + raw + ".class, "
        + Join(seq(|args|, i requires 0 <= i < |args| => TypeExpr(args[i])), ", ") + ")"
    case Wildcard(b) => TypeExpr(b)
    case _ => SimpleText(t) + ".class"
  }

  /** t with every wildcard, at any depth, replaced by its upper bound. */
  function EraseWildcards(t: TypeName): (r: TypeName)
    ensures !r.Wildcard?
    decreases t
  {
    match t
    case Parameterized(raw, args) =>
      Parameterized(raw, seq(|args|, i requires 0 <= i < |args| => EraseWildcards(args[i])))
    case Wildcard(b) => EraseWildcards(b)
    case _ => t
  }

  /** makeType sees through wildcards at every depth: only their upper bounds reach the output. */
  lemma {:induction false} TypeExprErasesWildcards(t: TypeName)
    ensures TypeExpr(t) == TypeExpr(EraseWildcards(t))
    decreases t
  {
    match t
    case Parameterized(raw, args) =>
      var erased := EraseWildcards(t);
      forall i | 0 <= i < |args|
        ensures TypeExpr(args[i]) == TypeExpr(erased.args[i])
      {
        TypeExprErasesWildcards(args[i]);
      }
      assert seq(|args|, i requires 0 <= i < |args| => TypeExpr(args[i]))
          == seq(|erased.args|, i requires 0 <= i < |erased.args| => TypeExpr(erased.args[i]));
    case Wildcard(b) =>
      TypeExprErasesWildcards(b);
    case _ =>
  }

  // ---- generateReader / generatePrimitiveReader ----

  /** generatePrimitiveReader: the read and whether it is null-guarded, or the error for byte and char. */
  function PrimitiveRead(k: PrimKind, nullable: bool): Result<(ReadCall, bool), GenError> {
    match k
    case Boolean => Success((NextBoolean, nullable))
    case Byte => Failure(AnnotationError("Byte not supported"))
    case Short => Success((ShortFromInt, false))
    case Int => Success((NextInt, nullable))
    case Long => Success((NextLong, nullable))
    case Char => Failure(AnnotationError("Char not supported"))
    case Float => Success((FloatFromDouble, false))
    case Double => Success((NextDouble, nullable))
  }

  /** generateReader: primitive or boxed first, then String, else a delegated adapter. */
  function ReaderCall(f: VarElement): Result<(ReadCall, bool), GenError> {
    if f.typ.Primitive? || f.typ.Boxed? then PrimitiveRead(f.typ.kind, IsNullable(f.annotations))
    else if f.typ == StringType then Success((NextString, IsNullable(f.annotations)))
    else Success((ViaAdapter(TypeExpr(f.typ)), false))
  }

  function MissingMessage(f: VarElement): string {
    JsonFieldName(f) + " is non-optional but was not found in the json"
  }

  predicate IsByteOrChar(t: TypeName) {
    (t.Primitive? || t.Boxed?) && (t.kind == Byte || t.kind == Char)
  }

  /** What the reader emits for one constructor parameter. */
  function FieldReadOf(f: VarElement): Result<FieldRead, GenError> {
    match ReaderCall(f)
    case Failure(e) => Failure(e)
    case Success(cg) =>
      Success(FieldRead(f.name, Box(f.typ), Case(JsonFieldName(f), f.name, cg.0, cg.1),
                        !IsNullable(f.annotations), MissingMessage(f)))
  }

  /**
    The read of one parameter: byte and char are refused; otherwise the case is labelled
    with the JSON name and fills the parameter's own local, the parameter is required
    exactly when it carries no Nullable marker, a JSON null is accepted only for a nullable
    String, boolean, int, long or double, and every other declared type goes to an adapter.
  */
  lemma {:induction false} FieldReadRule(f: VarElement)
    ensures FieldReadOf(f).Failure? <==> IsByteOrChar(f.typ)
    ensures FieldReadOf(f).Failure? ==>
      FieldReadOf(f).error == AnnotationError(if f.typ.kind == Byte then "Byte not supported" else "Char not supported")
    ensures FieldReadOf(f).Success? ==>
      var r := FieldReadOf(f).value;
      && r.slot == f.name && r.c.slot == f.name
      && r.boxed == Box(f.typ)
      && r.c.key == JsonFieldName(f)
      && (r.required <==> !IsNullable(f.annotations))
      && r.missing == JsonFieldName(f) + " is non-optional but was not found in the json"
      && (r.c.nullGuard <==>
            IsNullable(f.annotations)
              && (f.typ == StringType
                  || ((f.typ.Primitive? || f.typ.Boxed?) && f.typ.kind in {Boolean, Int, Long, Double})))
      && (!f.typ.Primitive? && !f.typ.Boxed? && f.typ != StringType ==> r.c.call == ViaAdapter(TypeExpr(f.typ)))
  {
  }

  /** The reads of all parameters, or the error of the first parameter that has none. */
  function ReadsOf(fs: seq<VarElement>): Result<seq<FieldRead>, GenError>
    decreases |fs|
  {
    if |fs| == 0 then Success([])
    else
      match FieldReadOf(fs[0])
      case Failure(e) => Failure(e)
      case Success(p) =>
        match ReadsOf(fs[1..])
        case Failure(e) => Failure(e)
        case Success(ps) => Success([p] + ps)
  }

  /** The reads exist exactly when every parameter has one, and then they are those, in order. */
  lemma {:induction false} ReadsOfRule(fs: seq<VarElement>)
    ensures ReadsOf(fs).Success? <==> forall i :: 0 <= i < |fs| ==> FieldReadOf(fs[i]).Success?
    ensures ReadsOf(fs).Success? ==>
      |ReadsOf(fs).value| == |fs| && forall i :: 0 <= i < |fs| ==> ReadsOf(fs).value[i] == FieldReadOf(fs[i]).value
    decreases |fs|
  {
    if |fs| > 0 {
      ReadsOfRule(fs[1..]);
      assert forall j :: 1 <= j < |fs| ==> fs[j] == fs[1..][j - 1];
    }
  }

  lemma {:induction false} ReadsLength(fs: seq<VarElement>)
    requires ReadsOf(fs).Success?
    ensures |ReadsOf(fs).value| == |fs|
  {
    ReadsOfRule(fs);
  }

  /** The fromJson body for a class cls whose constructor parameters are fs. */
  function ReaderOf(cls: string, fs: seq<VarElement>): Result<seq<ReaderStmt>, GenError> {
    match ReadsOf(fs)
    case Failure(err) => Failure(err)
    case Success(ps) => Success(Block(cls, ps))
  }

  /** createReaderBlock, as a value: the fields rule, then the reads, then the fixed shape. */
  function ReaderBlockOf(e: TypeElement): Result<seq<ReaderStmt>, GenError> {
    match Cls.FieldsOf(e)
    case Failure(err) => Failure(err)
    case Success(fs) => ReaderOf(e.qualifiedName, fs)
  }

  /** ReadsOf fails with the error of the first parameter that has no read. */
  lemma {:induction false} ReadsOfFirstFailure(fs: seq<VarElement>, i: int)
    requires 0 <= i < |fs| && FieldReadOf(fs[i]).Failure?
    requires forall j :: 0 <= j < i ==> FieldReadOf(fs[j]).Success?
    ensures ReadsOf(fs) == Failure(FieldReadOf(fs[i]).error)
    decreases i
  {
    if i > 0 {
      assert forall j :: 0 <= j < i - 1 ==> fs[1..][j] == fs[j + 1];
      ReadsOfFirstFailure(fs[1..], i - 1);
    }
  }

  /** What the read of parameter i records about it. */
  lemma {:induction false} ReadAt(fs: seq<VarElement>, i: int)
    requires ReadsOf(fs).Success? && 0 <= i < |fs|
    ensures |ReadsOf(fs).value| == |fs|
    ensures var p := ReadsOf(fs).value[i];
      && p.slot == fs[i].name && p.c.slot == fs[i].name && p.boxed == Box(fs[i].typ)
      && p.c.key == JsonFieldName(fs[i])
      && (p.required <==> !IsNullable(fs[i].annotations))
      && p.missing == MissingMessage(fs[i])
  {
    ReadsOfRule(fs);
    FieldReadRule(fs[i]);
  }

  /** The declarations loop of createReaderBlock: `<Boxed> <name> = null;` per parameter. */
  method DeclareLocals(fs: seq<VarElement>) returns (ds: seq<ReaderStmt>)
    ensures |ds| == |fs|
    ensures forall i :: 0 <= i < |fs| ==> ds[i] == DeclareSlot(Box(fs[i].typ), fs[i].name)
  {
    ds := [];
    for i := 0 to |fs|
      invariant |ds| == i
      invariant forall j :: 0 <= j < i ==> ds[j] == DeclareSlot(Box(fs[j].typ), fs[j].name)
    {
      ds := ds + [DeclareSlot(Box(fs[i].typ), fs[i].name)];
    }
  }

  /** The switch loop of createReaderBlock: one case per parameter, stopping at the first byte or char. */
  method SwitchCases(fs: seq<VarElement>) returns (r: Result<seq<Case>, GenError>)
    ensures r.Success? <==> ReadsOf(fs).Success?
    ensures r.Success? ==> r.value == CasesOf(ReadsOf(fs).value)
    ensures r.Failure? ==> r.error == ReadsOf(fs).error
  {
    ReadsOfRule(fs);
    var cases: seq<Case> := [];
    for i := 0 to |fs|
      invariant |cases| == i
      invariant forall j :: 0 <= j < i ==> FieldReadOf(fs[j]).Success? && cases[j] == FieldReadOf(fs[j]).value.c
    {
      var read := FieldReadOf(fs[i]);
      if read.Failure? {
        ReadsOfFirstFailure(fs, i);
        return Failure(read.error);
      }
      cases := cases + [read.value.c];
    }
    return Success(cases);
  }

  /** generateNullChecks: a throwing null check for each parameter that is not nullable. */
  method NullChecks(fs: seq<VarElement>) returns (checks: seq<ReaderStmt>)
    requires ReadsOf(fs).Success?
    ensures checks == Checks(ReadsOf(fs).value)
  {
    ghost var ps := ReadsOf(fs).value;
    checks := [];
    ReadsLength(fs);
    assert ps[0..] == ps;
    for i := 0 to |fs|
      invariant checks + Checks(ps[i..]) == Checks(ps)
    {
      ReadAt(fs, i);
      ChecksStep(ps, i, checks);
      if !IsNullable(fs[i].annotations) {
        checks := checks + [RequireSlot(fs[i].name, MissingMessage(fs[i]))];
      }
    }
    assert ps[|fs|..] == [];
  }

  /** The declarations and the constructor arguments of the block, read off the parameters alone. */
  lemma {:induction false} ReaderParts(fs: seq<VarElement>, decls: seq<ReaderStmt>, args: seq<string>)
    requires ReadsOf(fs).Success?
    requires |decls| == |fs| && forall j :: 0 <= j < |fs| ==> decls[j] == DeclareSlot(Box(fs[j].typ), fs[j].name)
    requires |args| == |fs| && forall j :: 0 <= j < |fs| ==> args[j] == fs[j].name
    ensures decls == Decls(ReadsOf(fs).value) && args == Args(ReadsOf(fs).value)
  {
    ReadsFacts(fs);
  }

  /** createReaderBlock: the declarations, the read loop, the null checks and the constructor call. */
  method CreateReaderBlock(e: TypeElement) returns (r: Result<seq<ReaderStmt>, GenError>)
    ensures r == ReaderBlockOf(e)
  {
    var fr := Cls.Fields(e);
    if fr.Failure? {
      return Failure(fr.error);
    }
    var fs := fr.value;
    var decls := DeclareLocals(fs);
    var cases := SwitchCases(fs);
    if cases.Failure? {
      return Failure(cases.error);
    }
    var checks := NullChecks(fs);
    var args: seq<string> := [];
    for i := 0 to |fs|
      invariant |args| == i && forall j :: 0 <= j < i ==> args[j] == fs[j].name
    {
      args := args + [fs[i].name];
    }
    ReaderParts(fs, decls, args);
    r := Success(decls + [BeginObject, ReadLoop(cases.value), EndObject] + checks + [ReturnNew(e.qualifiedName, args)]);
  }

  /**
    The shape of a generated fromJson: one null-initialised local per constructor parameter,
    in order; one case per parameter labelled with its JSON name; a check exactly for the
    required parameters; the constructor call passing the locals by position.
  */
  lemma {:induction false} ReaderShape(cls: string, fs: seq<VarElement>)
    requires ReadsOf(fs).Success?
    ensures ReaderOf(cls, fs).Success?
    ensures var b := ReaderOf(cls, fs).value;
      && |b| == |fs| + 4 + |Checks(ReadsOf(fs).value)|
      && (forall i :: 0 <= i < |fs| ==> b[i] == DeclareSlot(Box(fs[i].typ), fs[i].name))
      && b[|fs|] == BeginObject && b[|fs| + 2] == EndObject
      && b[|fs| + 1].ReadLoop? && |b[|fs| + 1].cases| == |fs|
      && (forall i :: 0 <= i < |fs| ==>
            b[|fs| + 1].cases[i].key == JsonFieldName(fs[i]) && b[|fs| + 1].cases[i].slot == fs[i].name)
      && b[|b| - 1] == ReturnNew(cls, seq(|fs|, i requires 0 <= i < |fs| => fs[i].name))
  {
    ReadsFacts(fs);
    var ps := ReadsOf(fs).value;
    assert ReaderOf(cls, fs) == Success(Block(cls, ps));
    BlockLayout(cls, ps);
    assert Args(ps) == seq(|fs|, i requires 0 <= i < |fs| => fs[i].name);
  }

  /** Parameter names are distinct (Java guarantees it) and so are their JSON names. */
  predicate DistinctNames(fs: seq<VarElement>) {
    forall i, j :: 0 <= i < j < |fs| ==> fs[i].name != fs[j].name && JsonFieldName(fs[i]) != JsonFieldName(fs[j])
  }

  /** Every parameter's read, stated at once. */
  lemma {:induction false} ReadsFacts(fs: seq<VarElement>)
    requires ReadsOf(fs).Success?
    ensures |ReadsOf(fs).value| == |fs|
    ensures forall i :: 0 <= i < |fs| ==>
      var p := ReadsOf(fs).value[i];
      && p.slot == fs[i].name && p.c.slot == fs[i].name && p.c.key == JsonFieldName(fs[i])
      && p.boxed == Box(fs[i].typ)
      && (p.required <==> !IsNullable(fs[i].annotations))
      && p.missing == MissingMessage(fs[i])
  {
    ReadsOfRule(fs);
    forall i | 0 <= i < |fs| {
      ReadAt(fs, i);
    }
  }

  lemma {:induction false} ReadsWellFormed(fs: seq<VarElement>)
    requires ReadsOf(fs).Success? && DistinctNames(fs)
    ensures WellFormed(ReadsOf(fs).value)
  {
    ReadsFacts(fs);
  }

  /** The value the generated reader gives parameter i for the members ms. */
  function ParamValue(fs: seq<VarElement>, i: int, ms: seq<(string, Json)>): Option<Json>
    requires ReadsOf(fs).Success? && 0 <= i < |ReadsOf(fs).value|
  {
    Track(ReadsOf(fs).value[i].c, None, ms)
  }

  /** Whether every parameter without a Nullable marker receives a value from ms. */
  predicate RequiredPresent(fs: seq<VarElement>, ms: seq<(string, Json)>)
    requires ReadsOf(fs).Success? && |ReadsOf(fs).value| == |fs|
  {
    forall i :: 0 <= i < |fs| && !IsNullable(fs[i].annotations) ==> ParamValue(fs, i, ms).Some?
  }

  /** Parameter i is the first one without a Nullable marker that ms leaves without a value. */
  predicate FirstAbsent(fs: seq<VarElement>, ms: seq<(string, Json)>, i: int)
    requires ReadsOf(fs).Success? && |ReadsOf(fs).value| == |fs|
  {
    && 0 <= i < |fs| && !IsNullable(fs[i].annotations) && ParamValue(fs, i, ms).None?
    && forall j :: 0 <= j < i && !IsNullable(fs[j].annotations) ==> ParamValue(fs, j, ms).Some?
  }

  /** The generated fromJson over an object: a read the reader refuses ends it with that read's exception. */
  lemma {:induction false} FromJsonReadFails(cls: string, fs: seq<VarElement>, ms: seq<(string, Json)>)
    requires ReadsOf(fs).Success? && DistinctNames(fs)
    requires var ps := ReadsOf(fs).value; Loop(CasesOf(ps), Start(ps), ms).Failure?
    ensures var ps := ReadsOf(fs).value;
      FromJson(ReaderOf(cls, fs).value, JObject(ms)) == Threw(Loop(CasesOf(ps), Start(ps), ms).error)
  {
    BlockLoopFails(cls, ReadsOf(fs).value, ms);
  }

  /**
    The generated fromJson over an object whose reads all succeed and which gives every
    parameter without a Nullable marker a value: the constructor receives, by position,
    each parameter's value.
  */
  lemma {:induction false} FromJsonConstructs(cls: string, fs: seq<VarElement>, ms: seq<(string, Json)>)
    requires ReadsOf(fs).Success? && |ReadsOf(fs).value| == |fs| && DistinctNames(fs)
    requires var ps := ReadsOf(fs).value; Loop(CasesOf(ps), Start(ps), ms).Success?
    requires RequiredPresent(fs, ms)
    ensures FromJson(ReaderOf(cls, fs).value, JObject(ms))
         == Constructed(cls, seq(|fs|, i requires 0 <= i < |fs| => ParamValue(fs, i, ms)))
  {
    var ps := ReadsOf(fs).value;
    ReadsWellFormed(fs);
    forall i | 0 <= i < |ps| && ps[i].required
      ensures Values(ps, ms)[i].Some?
    {
      ReadAt(fs, i);
    }
    BlockConstructs(cls, ps, ms);
    assert Values(ps, ms) == seq(|fs|, i requires 0 <= i < |fs| => ParamValue(fs, i, ms));
  }

  /**
    The generated fromJson over an object whose reads all succeed but which leaves a
    parameter without a Nullable marker null: the IOException names the JSON name of the
    first such parameter.
  */
  lemma {:induction false} FromJsonMissing(cls: string, fs: seq<VarElement>, ms: seq<(string, Json)>)
    requires ReadsOf(fs).Success? && |ReadsOf(fs).value| == |fs| && DistinctNames(fs)
    requires var ps := ReadsOf(fs).value; Loop(CasesOf(ps), Start(ps), ms).Success?
    requires !RequiredPresent(fs, ms)
    ensures exists i :: FirstAbsent(fs, ms, i) && FromJson(ReaderOf(cls, fs).value, JObject(ms)) == Threw(IOException(MissingMessage(fs[i])))
  {
    var ps := ReadsOf(fs).value;
    ReadsWellFormed(fs);
    SomeRequiredUnset(fs, ms);
    BlockMissing(cls, ps, ms);
    var i :| FirstUnset(ps, ms, i) && FromJson(Block(cls, ps), JObject(ms)) == Threw(IOException(ps[i].missing));
    FirstUnsetIsFirstAbsent(fs, ms, i);
    ReadAt(fs, i);
  }

  /** A parameter without a Nullable marker left without a value is a required slot left unset. */
  lemma {:induction false} SomeRequiredUnset(fs: seq<VarElement>, ms: seq<(string, Json)>)
    requires ReadsOf(fs).Success? && |ReadsOf(fs).value| == |fs|
    requires !RequiredPresent(fs, ms)
    ensures !AllRequiredSet(ReadsOf(fs).value, ms)
  {
    var k :| 0 <= k < |fs| && !IsNullable(fs[k].annotations) && ParamValue(fs, k, ms).None?;
    ReadAt(fs, k);
  }

  /** The first unset required slot is the first parameter without a Nullable marker left without a value. */
  lemma {:induction false} FirstUnsetIsFirstAbsent(fs: seq<VarElement>, ms: seq<(string, Json)>, i: int)
    requires ReadsOf(fs).Success? && |ReadsOf(fs).value| == |fs|
    requires FirstUnset(ReadsOf(fs).value, ms, i)
    ensures FirstAbsent(fs, ms, i)
  {
    ReadAt(fs, i);
    forall j | 0 <= j < i && !IsNullable(fs[j].annotations)
      ensures ParamValue(fs, j, ms).Some?
    {
      ReadAt(fs, j);
    }
  }

  /** A member whose name is no parameter's JSON name is skipped. */
  lemma {:induction false} UnknownKeySkipped(cls: string, fs: seq<VarElement>, a: seq<(string, Json)>, k: string, v: Json,
                          b: seq<(string, Json)>)
    requires ReadsOf(fs).Success?
    requires forall i :: 0 <= i < |fs| ==> JsonFieldName(fs[i]) != k
    ensures FromJson(ReaderOf(cls, fs).value, JObject(a + [(k, v)] + b))
         == FromJson(ReaderOf(cls, fs).value, JObject(a + b))
  {
    ReadsFacts(fs);
    BlockIgnoresUnknown(cls, ReadsOf(fs).value, a, k, v, b);
  }

  // ---- valueAccessor ----

  /** How the writer reads a field: `value.<name>` or `value.<getter>()`. */
  datatype Accessor = FieldAccess(name: string) | GetterCall(getter: string)

  function AccessorText(a: Accessor): string {
    match a
    case FieldAccess(n) => n
    case GetterCall(g) => g + "()"
  }

  predicate IsBooleanType(t: TypeName) {
    t == Primitive(Boolean) || t == Boxed(Boolean)
  }

  function BooleanGetterName(name: string): string {
    if StartsWith(name, "is") then name else "is" + Capitalize(name)
  }

  /** The accessor names something the generated adapter can read on the instance. */
  predicate Readable(e: TypeElement, f: VarElement, a: Accessor) {
    match a
    case FieldAccess(n) => n == f.name && (Cls.HasVisibleField(e, n) || Public in f.modifiers)
    case GetterCall(g) => Cls.HasGetterSpec(e, g, f.typ)
  }

  /** valueAccessor as written: the visible field, else a boolean's is-getter when it exists, else get<Name>(). */
  function AccessorAsWritten(e: TypeElement, f: VarElement): (a: Accessor)
    ensures a.FieldAccess? <==> Cls.HasVisibleField(e, f.name)
    ensures a.FieldAccess? ==> a.name == f.name
    ensures !Cls.HasVisibleField(e, f.name) && IsBooleanType(f.typ) && Cls.HasGetterSpec(e, BooleanGetterName(f.name), f.typ)
      ==> a == GetterCall(BooleanGetterName(f.name))
    ensures !Cls.HasVisibleField(e, f.name) && !(IsBooleanType(f.typ) && Cls.HasGetterSpec(e, BooleanGetterName(f.name), f.typ))
      ==> a == GetterCall("get" + Capitalize(f.name))
    ensures a.GetterCall? && a.getter != "get" + Capitalize(f.name) ==>
      IsBooleanType(f.typ) && Cls.HasGetterSpec(e, a.getter, f.typ)
  {
    if Cls.HasVisibleField(e, f.name) then FieldAccess(f.name)
    else if IsBooleanType(f.typ) && Cls.HasGetterSpec(e, BooleanGetterName(f.name), f.typ)
    then GetterCall(BooleanGetterName(f.name))
    else GetterCall("get" + Capitalize(f.name))
  }

  /**
    valueAccessor, corrected: after the same first two choices it uses whichever getter made
    the field a writer field, and a public field by name, before falling back to get<Name>().
  */
  function ValueAccessorOf(e: TypeElement, f: VarElement): Accessor {
    var cap := Capitalize(f.name);
    if Cls.HasVisibleField(e, f.name) then FieldAccess(f.name)
    else if IsBooleanType(f.typ) && Cls.HasGetterSpec(e, BooleanGetterName(f.name), f.typ)
    then GetterCall(BooleanGetterName(f.name))
    else if Cls.HasGetterSpec(e, "get" + cap, f.typ) then GetterCall("get" + cap)
    else if Cls.HasGetterSpec(e, "is" + cap, f.typ) then GetterCall("is" + cap)
    else if Cls.HasGetterSpec(e, f.name, f.typ) then GetterCall(f.name)
    else if Public in f.modifiers then FieldAccess(f.name)
    else GetterCall("get" + cap)
  }

  /** Every writer field gets an accessor that names something readable. */
  lemma {:induction false} WriterFieldReadable(e: TypeElement, f: VarElement)
    requires Cls.IsWriterField(e, f)
    ensures Readable(e, f, ValueAccessorOf(e, f))
  {
  }

  /** The correction changes nothing where the accessor as written was readable. */
  lemma {:induction false} CorrectionConservative(e: TypeElement, f: VarElement)
    requires Readable(e, f, AccessorAsWritten(e, f))
    ensures ValueAccessorOf(e, f) == AccessorAsWritten(e, f)
  {
  }

  /**
    As written, a writer field can get an accessor that names nothing: a private String field
    `name` read through a public `name()` method is a writer field, but its accessor is
    `getName()`, which the class does not declare.
  */
  lemma {:induction false} AccessorAsWrittenUnreadable()
    ensures var f := VarElement("name", StringType, [], None, {Private}, false);
      var e := TypeElement(ClassKind, "Item", "com.example.Item", {Public},
                           [Enclosing(PackageKind, "com.example")],
                           [FieldMember(f), ConstructorMember([f.(modifiers := {})]),
                            MethodMember("name", 0, StringType, {Public})],
                           [ClassLevel(true, "java.lang.Object", [])], false, DefaultOptions);
      Cls.IsWriterField(e, f)
        && AccessorAsWritten(e, f) == GetterCall("getName")
        && !Readable(e, f, AccessorAsWritten(e, f))
        && ValueAccessorOf(e, f) == GetterCall("name")
  {
    var f := VarElement("name", StringType, [], None, {Private}, false);
    var getter := MethodMember("name", 0, StringType, {Public});
    var e := TypeElement(ClassKind, "Item", "com.example.Item", {Public},
                         [Enclosing(PackageKind, "com.example")],
                         [FieldMember(f), ConstructorMember([f.(modifiers := {})]), getter],
                         [ClassLevel(true, "java.lang.Object", [])], false, DefaultOptions);
    assert Capitalize("name") == "Name";
    var ls := Levels(e);
    assert ls[1].qualifiedName == Cls.ObjectName;
    assert Cls.WalkLength(ls[1..]) == 0;
    assert Cls.Walked(e) == [ls[0]];
    assert Cls.IsGetter(e.members[2], "name", StringType);
    assert Cls.HasGetterSpec(e, "name", StringType);
    assert "getName" != "name" && "isName" != "name";
    assert !Cls.HasGetterSpec(e, "getName", StringType) by {
      forall j | 0 <= j < |ls[0].members|
        ensures !Cls.IsGetter(ls[0].members[j], "getName", StringType)
      {
      }
    }
    assert !Cls.HasGetterSpec(e, "isName", StringType) by {
      forall j | 0 <= j < |ls[0].members|
        ensures !Cls.IsGetter(ls[0].members[j], "isName", StringType)
      {
      }
    }
    assert Cls.GetFieldByName(e.members, "name") == Some(f);
  }

  /** valueAccessor (corrected): the hasVisibleField test, then the getter lookups in order. */
  method ValueAccessor(e: TypeElement, f: VarElement) returns (a: Accessor)
    ensures a == ValueAccessorOf(e, f)
  {
    if Cls.HasVisibleField(e, f.name) {
      return FieldAccess(f.name);
    }
    var cap := Capitalize(f.name);
    if IsBooleanType(f.typ) {
      var getterName := BooleanGetterName(f.name);
      var found := Cls.HasGetter(e, getterName, f.typ);
      if found {
        return GetterCall(getterName);
      }
    }
    var found := Cls.HasGetter(e, "get" + cap, f.typ);
    if found {
      return GetterCall("get" + cap);
    }
    found := Cls.HasGetter(e, "is" + cap, f.typ);
    if found {
      return GetterCall("is" + cap);
    }
    found := Cls.HasGetter(e, f.name, f.typ);
    if found {
      return GetterCall(f.name);
    }
    if Public in f.modifiers {
      return FieldAccess(f.name);
    }
    return GetterCall("get" + cap);
  }

  // ---- createWriterBlock / generateWriter ----

  /**
    The accessor text the writer uses for each field. The per-field lemmas below hold for
    any choice; the generator's own is AccessorsOf.
  */
  type Accessors = VarElement -> string

  /** valueAccessor's text for every field of e, corrected as ValueAccessorOf says. */
  function AccessorsOf(e: TypeElement): Accessors {
    f => AccessorText(ValueAccessorOf(e, f))
  }

  /** valueAccessor's text for every field of e, as written. */
  function AccessorsAsWrittenOf(e: TypeElement): Accessors {
    f => AccessorText(AccessorAsWritten(e, f))
  }

  /** generateWriter: writer.value for primitives, boxed primitives and String, else a delegated adapter. */
  function FieldWriter(acc: Accessors, f: VarElement): WriterStmt {
    if f.typ.Primitive? || f.typ.Boxed? || f.typ == StringType then WriteValue(acc(f))
    else WriteDelegated(TypeExpr(f.typ), acc(f))
  }

  function FieldWrites(acc: Accessors, fs: seq<VarElement>): seq<WriterStmt>
    decreases |fs|
  {
    if |fs| == 0 then []
    else [WriteName(JsonFieldName(fs[0])), FieldWriter(acc, fs[0])] + FieldWrites(acc, fs[1..])
  }

  /** The per-field statements never return early. */
  lemma {:induction false} FieldWritesNoGuard(acc: Accessors, fs: seq<VarElement>)
    ensures forall i :: 0 <= i < |FieldWrites(acc, fs)| ==> !FieldWrites(acc, fs)[i].NullGuard?
    decreases |fs|
  {
    if |fs| > 0 {
      FieldWritesNoGuard(acc, fs[1..]);
    }
  }

  /** createWriterBlock, as a value, for the accessors acc. */
  function WriterBlockWith(e: TypeElement, acc: Accessors): seq<WriterStmt> {
    if e.options.generateWriter then
      [NullGuard, WriterBeginObject] + FieldWrites(acc, Cls.WriterFieldsOf(e)) + [WriterEndObject]
    else [DelegateToNext]
  }

  /** createWriterBlock of the generator: with the corrected accessors. */
  function WriterBlockOf(e: TypeElement): seq<WriterStmt> {
    WriterBlockWith(e, AccessorsOf(e))
  }

  /** Field writes with two accessor choices that agree on every field are the same statements. */
  lemma {:induction false} FieldWritesAgree(a1: Accessors, a2: Accessors, fs: seq<VarElement>)
    requires forall i :: 0 <= i < |fs| ==> a1(fs[i]) == a2(fs[i])
    ensures FieldWrites(a1, fs) == FieldWrites(a2, fs)
    decreases |fs|
  {
    if |fs| > 0 {
      assert forall i :: 0 <= i < |fs| - 1 ==> fs[1..][i] == fs[i + 1];
      FieldWritesAgree(a1, a2, fs[1..]);
      assert a1(fs[0]) == a2(fs[0]);
    }
  }

  /**
    Where valueAccessor as written names something readable for every writer field, the
    generator's writer block is exactly the block written with the accessors as written.
  */
  lemma {:induction false} WriterAsWrittenWhereReadable(e: TypeElement)
    requires forall i :: 0 <= i < |Cls.WriterFieldsOf(e)| ==>
      Readable(e, Cls.WriterFieldsOf(e)[i], AccessorAsWritten(e, Cls.WriterFieldsOf(e)[i]))
    ensures WriterBlockOf(e) == WriterBlockWith(e, AccessorsAsWrittenOf(e))
  {
    var wf := Cls.WriterFieldsOf(e);
    forall i | 0 <= i < |wf|
      ensures AccessorsOf(e)(wf[i]) == AccessorsAsWrittenOf(e)(wf[i])
    {
      CorrectionConservative(e, wf[i]);
    }
    FieldWritesAgree(AccessorsOf(e), AccessorsAsWrittenOf(e), wf);
  }

  /** One more field's name and value appended to the statements of the fields before it. */
  lemma {:induction false} WritesStep(acc: Accessors, fs: seq<VarElement>, i: int, body: seq<WriterStmt>)
    requires 0 <= i < |fs| && body + FieldWrites(acc, fs[i..]) == FieldWrites(acc, fs)
    ensures (body + [WriteName(JsonFieldName(fs[i])), FieldWriter(acc, fs[i])]) + FieldWrites(acc, fs[i + 1..]) == FieldWrites(acc, fs)
  {
    assert fs[i..][1..] == fs[i + 1..];
  }

  /** The loop of createWriterBlock: `writer.name(...)` and the value, per writer field. */
  method WriteFields(e: TypeElement, fs: seq<VarElement>) returns (body: seq<WriterStmt>)
    ensures body == FieldWrites(AccessorsOf(e), fs)
  {
    var accs := AccessorsOf(e);
    body := [];
    assert fs[0..] == fs;
    for i := 0 to |fs|
      invariant body + FieldWrites(accs, fs[i..]) == FieldWrites(accs, fs)
    {
      WritesStep(accs, fs, i, body);
      var acc := ValueAccessor(e, fs[i]);
      assert AccessorText(acc) == accs(fs[i]);
      var w := if fs[i].typ.Primitive? || fs[i].typ.Boxed? || fs[i].typ == StringType
               then WriteValue(AccessorText(acc))
               else WriteDelegated(TypeExpr(fs[i].typ), AccessorText(acc));
      body := body + [WriteName(JsonFieldName(fs[i])), w];
    }
    assert fs[|fs|..] == [];
  }

  /** createWriterBlock: the null guard and beginObject, name and value per writer field, endObject. */
  method CreateWriterBlock(e: TypeElement) returns (b: seq<WriterStmt>)
    ensures b == WriterBlockOf(e)
  {
    if !e.options.generateWriter {
      return [DelegateToNext];
    }
    var fs := Cls.WriterFields(e);
    var body := WriteFields(e, fs);
    b := [NullGuard, WriterBeginObject] + body + [WriterEndObject];
  }

  /** The token the writer's value statement for f emits on inst. */
  function ValueToken(acc: Accessors, inst: Instance, f: VarElement): Token {
    var v := Access(inst, acc(f));
    if f.typ.Primitive? || f.typ.Boxed? || f.typ == StringType then TValue(v) else TAdapterValue(TypeExpr(f.typ), v)
  }

  function FieldTokens(acc: Accessors, fs: seq<VarElement>, inst: Instance): seq<Token>
    decreases |fs|
  {
    if |fs| == 0 then []
    else [TName(JsonFieldName(fs[0])), ValueToken(acc, inst, fs[0])] + FieldTokens(acc, fs[1..], inst)
  }

  /** One statement that writes h, followed by statements that write t. */
  lemma {:induction false} ToJsonCons(s: WriterStmt, rest: seq<WriterStmt>, value: Option<Instance>, h: seq<Token>, t: seq<Token>)
    requires !s.NullGuard? && StmtTokens(s, value) == Success(h) && ToJson(rest, value) == Success(t)
    ensures ToJson([s] + rest, value) == Success(h + t)
  {
    assert ([s] + rest)[0] == s && ([s] + rest)[1..] == rest;
  }

  /** Two statements that write one token each, followed by statements that write t. */
  lemma {:induction false} ToJsonPair(a: WriterStmt, b: WriterStmt, rest: seq<WriterStmt>, value: Option<Instance>,
                                      ha: Token, hb: Token, t: seq<Token>)
    requires !a.NullGuard? && StmtTokens(a, value) == Success([ha])
    requires !b.NullGuard? && StmtTokens(b, value) == Success([hb])
    requires ToJson(rest, value) == Success(t)
    ensures ToJson([a, b] + rest, value) == Success([ha, hb] + t)
  {
    ToJsonCons(b, rest, value, [hb], t);
    ToJsonCons(a, [b] + rest, value, [ha], [hb] + t);
    assert [a] + ([b] + rest) == [a, b] + rest && [ha] + ([hb] + t) == [ha, hb] + t;
  }

  /** The two statements of one field write its JSON name and then its value. */
  lemma {:induction false} FieldWriterTokens(acc: Accessors, f: VarElement, inst: Instance)
    ensures StmtTokens(WriteName(JsonFieldName(f)), Some(inst)) == Success([TName(JsonFieldName(f))])
    ensures !FieldWriter(acc, f).NullGuard? && StmtTokens(FieldWriter(acc, f), Some(inst)) == Success([ValueToken(acc, inst, f)])
  {
  }

  lemma {:induction false} FieldWritesRun(acc: Accessors, fs: seq<VarElement>, inst: Instance)
    ensures ToJson(FieldWrites(acc, fs), Some(inst)) == Success(FieldTokens(acc, fs, inst))
    decreases |fs|
  {
    if |fs| > 0 {
      FieldWritesRun(acc, fs[1..], inst);
      FieldWriterTokens(acc, fs[0], inst);
      ToJsonPair(WriteName(JsonFieldName(fs[0])), FieldWriter(acc, fs[0]), FieldWrites(acc, fs[1..]), Some(inst),
                 TName(JsonFieldName(fs[0])), ValueToken(acc, inst, fs[0]), FieldTokens(acc, fs[1..], inst));
    }
  }

  /** The (JSON name, value) pairs a writer emits for fs, in order. */
  function FieldPairs(acc: Accessors, fs: seq<VarElement>, inst: Instance): seq<(string, Json)> {
    seq(|fs|, i requires 0 <= i < |fs| => (JsonFieldName(fs[i]), Access(inst, acc(fs[i]))))
  }

  lemma {:induction false} FieldPairsCons(acc: Accessors, fs: seq<VarElement>, inst: Instance)
    requires |fs| > 0
    ensures FieldPairs(acc, fs, inst) == [(JsonFieldName(fs[0]), Access(inst, acc(fs[0])))] + FieldPairs(acc, fs[1..], inst)
  {
    var tail := FieldPairs(acc, fs[1..], inst);
    assert forall i :: 0 <= i < |tail| ==> tail[i] == FieldPairs(acc, fs, inst)[i + 1];
  }

  lemma {:induction false} FieldTokensMembers(acc: Accessors, fs: seq<VarElement>, inst: Instance)
    ensures |FieldTokens(acc, fs, inst)| == 2 * |fs|
    ensures MembersOf(FieldTokens(acc, fs, inst)) == FieldPairs(acc, fs, inst)
    decreases |fs|
  {
    if |fs| > 0 {
      var tail := FieldTokens(acc, fs[1..], inst);
      FieldTokensMembers(acc, fs[1..], inst);
      var ts := FieldTokens(acc, fs, inst);
      assert ts == [TName(JsonFieldName(fs[0])), ValueToken(acc, inst, fs[0])] + tail;
      assert ts[2..] == tail;
      assert TokenJson(ts[1]) == Access(inst, acc(fs[0]));
      assert MembersOf(ts) == [(JsonFieldName(fs[0]), Access(inst, acc(fs[0])))] + MembersOf(tail);
      FieldPairsCons(acc, fs, inst);
    }
  }

  /** Writing null: `writer.nullValue()` and nothing else. */
  lemma {:induction false} WriterNull(e: TypeElement)
    requires e.options.generateWriter
    ensures ToJson(WriterBlockOf(e), None) == Success([TNull])
    ensures Written([TNull]) == Some(JNull)
  {
  }

  /** With the writer switched off, the whole value goes to the next adapter. */
  lemma {:induction false} WriterDisabled(e: TypeElement, value: Option<Instance>)
    requires !e.options.generateWriter
    ensures ToJson(WriterBlockOf(e), value) == Success([TNextAdapter])
  {
    ToJsonCons(DelegateToNext, [], value, [TNextAdapter], []);
    assert WriterBlockOf(e) == [DelegateToNext] + [];
    assert [TNextAdapter] + [] == [TNextAdapter];
  }

  /** The value the writer writes for field f of inst. */
  function WrittenValue(e: TypeElement, inst: Instance, f: VarElement): Json {
    Access(inst, AccessorsOf(e)(f))
  }

  /** The object the writer stands for on inst: each writer field's JSON name with the value its accessor reads. */
  function WrittenObject(e: TypeElement, inst: Instance): Json {
    JObject(FieldPairs(AccessorsOf(e), Cls.WriterFieldsOf(e), inst))
  }

  /** The per-field statements followed by `writer.endObject()`. */
  lemma {:induction false} BodyThenEnd(acc: Accessors, wf: seq<VarElement>, inst: Instance)
    ensures ToJson(FieldWrites(acc, wf) + [WriterEndObject], Some(inst)) == Success(FieldTokens(acc, wf, inst) + [TEndObject])
  {
    FieldWritesRun(acc, wf, inst);
    ToJsonCons(WriterEndObject, [], Some(inst), [TEndObject], []);
    assert [WriterEndObject] + [] == [WriterEndObject] && [TEndObject] + [] == [TEndObject];
    FieldWritesNoGuard(acc, wf);
    ToJsonAppend(FieldWrites(acc, wf), [WriterEndObject], inst);
  }

  /** The enabled writer block, for any accessors: `beginObject`, the fields' tokens, `endObject`. */
  lemma {:induction false} ObjectBlockRun(acc: Accessors, wf: seq<VarElement>, inst: Instance)
    ensures var blk := [NullGuard, WriterBeginObject] + FieldWrites(acc, wf) + [WriterEndObject];
      && ToJson(blk, Some(inst)) == Success([TBeginObject] + (FieldTokens(acc, wf, inst) + [TEndObject]))
      && Written([TBeginObject] + (FieldTokens(acc, wf, inst) + [TEndObject])) == Some(JObject(FieldPairs(acc, wf, inst)))
  {
    var body := FieldWrites(acc, wf);
    var blk := [NullGuard, WriterBeginObject] + body + [WriterEndObject];
    FieldTokensMembers(acc, wf, inst);
    var ft := FieldTokens(acc, wf, inst);
    BodyThenEnd(acc, wf, inst);
    ToJsonCons(WriterBeginObject, body + [WriterEndObject], Some(inst), [TBeginObject], ft + [TEndObject]);
    assert blk[1..] == [WriterBeginObject] + (body + [WriterEndObject]);
    var ts := [TBeginObject] + (ft + [TEndObject]);
    assert ToJson(blk[1..], Some(inst)) == Success(ts);
    assert blk[0] == NullGuard;
    assert ToJson(blk, Some(inst)) == Success(ts);
    assert ts[1..|ts| - 1] == ft;
  }

  /**
    Writing an instance: one object holding, for every writer field in order, its JSON name
    and the value its accessor reads -- null values included, nothing skipped.
  */
  lemma {:induction false} WriterObject(e: TypeElement, inst: Instance)
    requires e.options.generateWriter
    ensures ToJson(WriterBlockOf(e), Some(inst)).Success?
    ensures |ToJson(WriterBlockOf(e), Some(inst)).value| == 2 * |Cls.WriterFieldsOf(e)| + 2
    ensures Written(ToJson(WriterBlockOf(e), Some(inst)).value) == Some(WrittenObject(e, inst))
  {
    var acc := AccessorsOf(e);
    var wf := Cls.WriterFieldsOf(e);
    ObjectBlockRun(acc, wf, inst);
    FieldTokensMembers(acc, wf, inst);
  }

  /** The per-parameter conditions of RoundTrip, moved onto the reads. */
  lemma {:induction false} ReadsAccept(fs: seq<VarElement>, wf: seq<VarElement>, vals: seq<Json>)
    requires ReadsOf(fs).Success? && |ReadsOf(fs).value| == |fs| && |wf| == |fs| && |vals| == |fs|
    requires forall i :: 0 <= i < |fs| ==> JsonFieldName(wf[i]) == JsonFieldName(fs[i])
    requires forall i :: 0 <= i < |fs| ==>
      var c := ReadsOf(fs).value[i].c;
      Read(c.call, c.nullGuard, vals[i]).Success?
        && (!IsNullable(fs[i].annotations) ==> Read(c.call, c.nullGuard, vals[i]).value.Some?)
    ensures var ps := ReadsOf(fs).value;
      forall i :: 0 <= i < |ps| && ps[i].required ==> Read(ps[i].c.call, ps[i].c.nullGuard, vals[i]).value.Some?
    ensures var ps := ReadsOf(fs).value;
      forall i :: 0 <= i < |ps| ==> ps[i].c.key == JsonFieldName(wf[i])
  {
    var ps := ReadsOf(fs).value;
    forall i | 0 <= i < |ps|
      ensures ps[i].required ==> Read(ps[i].c.call, ps[i].c.nullGuard, vals[i]).value.Some?
      ensures ps[i].c.key == JsonFieldName(wf[i])
    {
      ReadAt(fs, i);
    }
  }

  /** The values the writer emits, one per writer field, in order. */
  function WrittenValues(e: TypeElement, inst: Instance): seq<Json> {
    var wf := Cls.WriterFieldsOf(e);
    seq(|wf|, i requires 0 <= i < |wf| => WrittenValue(e, inst, wf[i]))
  }

  /**
    Round trip: when the writer fields carry the constructor parameters' JSON names, in
    order, and each written value is one the parameter's read accepts (and not null for a
    required one), reading the written object constructs the class from exactly those reads.
  */
  lemma {:induction false} RoundTrip(e: TypeElement, fs: seq<VarElement>, inst: Instance)
    requires ReadsOf(fs).Success? && |ReadsOf(fs).value| == |fs| && DistinctNames(fs)
    requires |Cls.WriterFieldsOf(e)| == |fs|
    requires forall i :: 0 <= i < |fs| ==> JsonFieldName(Cls.WriterFieldsOf(e)[i]) == JsonFieldName(fs[i])
    requires forall i :: 0 <= i < |fs| ==>
      var c := ReadsOf(fs).value[i].c;
      var v := WrittenValues(e, inst)[i];
      Read(c.call, c.nullGuard, v).Success? && (!IsNullable(fs[i].annotations) ==> Read(c.call, c.nullGuard, v).value.Some?)
    ensures ReaderOf(e.qualifiedName, fs).Success?
    ensures
      var ps := ReadsOf(fs).value;
      FromJson(ReaderOf(e.qualifiedName, fs).value, WrittenObject(e, inst))
        == Constructed(e.qualifiedName, seq(|fs|, i requires 0 <= i < |fs| =>
             Read(ps[i].c.call, ps[i].c.nullGuard, WrittenValues(e, inst)[i]).value))
  {
    var wf := Cls.WriterFieldsOf(e);
    var ps := ReadsOf(fs).value;
    var vals := WrittenValues(e, inst);
    ReadsWellFormed(fs);
    ReadsAccept(fs, wf, vals);
    WrittenPairs(e, ps, inst);
    ReadsBack(e.qualifiedName, ps, vals);
    assert ReaderOf(e.qualifiedName, fs) == Success(Block(e.qualifiedName, ps));
  }

  /** The written object lists, under each parameter's label, the value written for it. */
  lemma {:induction false} WrittenPairs(e: TypeElement, ps: seq<FieldRead>, inst: Instance)
    requires |Cls.WriterFieldsOf(e)| == |ps|
    requires forall i :: 0 <= i < |ps| ==> ps[i].c.key == JsonFieldName(Cls.WriterFieldsOf(e)[i])
    ensures Pairs(ps, WrittenValues(e, inst)) == WrittenObject(e, inst).members
  {
  }

  // ---- generate ----

  /** The adapter source file: `public class <Simple>Adapter extends JsonAdapter<Class>` in the class's package. */
  datatype AdapterFile = AdapterFile(
    packageName: string,
    className: string,
    adaptedClass: string,
    reader: seq<ReaderStmt>,
    writer: seq<WriterStmt>)

  datatype Output = Output(adapter: AdapterFile, factory: Option<FactoryGenerator.FactoryFile>)

  /** generate, as a value: reader errors first, then the package lookup. */
  function GenerateOf(e: TypeElement): Result<Output, GenError> {
    match ReaderBlockOf(e)
    case Failure(err) => Failure(err)
    case Success(reader) =>
      match Cls.PackageNameOf(e)
      case Failure(err) => Failure(err)
      case Success(pkg) =>
        var target := pkg + "." + e.simpleName;
        Success(Output(
          AdapterFile(pkg, e.simpleName + "Adapter", e.qualifiedName, reader, WriterBlockOf(e)),
          if e.options.generateFactory then
            Some(FactoryGenerator.FactoryFile(e.simpleName + "AdapterFactory", pkg, FactoryGenerator.FactoryInterface,
                                              [FactoryGenerator.Registration(target, target + "Adapter")]))
          else None))
  }

  /** generate: build fromJson and toJson, then the optional factory, then the adapter file. */
  method Generate(e: TypeElement) returns (r: Result<Output, GenError>)
    ensures r == GenerateOf(e)
    ensures r.Success? ==>
      && Cls.PackageNameOf(e) == Success(r.value.adapter.packageName)
      && r.value.adapter.className == e.simpleName + "Adapter"
      && r.value.adapter.reader == ReaderBlockOf(e).value
      && r.value.adapter.writer == WriterBlockOf(e)
      && (r.value.factory.Some? <==> e.options.generateFactory)
    ensures r.Success? && r.value.factory.Some? ==>
      var f := r.value.factory.value;
      var target := r.value.adapter.packageName + "." + e.simpleName;
      && f.className == e.simpleName + "AdapterFactory"
      && f.packageName == r.value.adapter.packageName
      && (forall k :: FactoryGenerator.Registered(f.registrations, k)
                      == if k == target then Some(target + "Adapter") else None)
    ensures r.Failure? ==> ReaderBlockOf(e).Failure? || Cls.PackageNameOf(e).Failure?
  {
    var reader := CreateReaderBlock(e);
    if reader.Failure? {
      return Failure(reader.error);
    }
    var writer := CreateWriterBlock(e);
    var pkg: Result<string, GenError>;
    var factory: Option<FactoryGenerator.FactoryFile> := None;
    if e.options.generateFactory {
      pkg := Cls.PackageName(e);
      if pkg.Failure? {
        return Failure(pkg.error);
      }
      var target := pkg.value + "." + e.simpleName;
      var f := FactoryGenerator.Generate(e.simpleName + "AdapterFactory", pkg.value, [target]);
      FactoryGenerator.GeneratedFindsListed(e.simpleName + "AdapterFactory", pkg.value, [target], f, target);
      forall k | true
        ensures FactoryGenerator.Registered(f.registrations, k) == if k == target then Some(target + "Adapter") else None
      {
        FactoryGenerator.GeneratedFindsListed(e.simpleName + "AdapterFactory", pkg.value, [target], f, k);
      }
      assert f.registrations == [FactoryGenerator.Registration(target, target + "Adapter")];
      factory := Some(f);
    }
    pkg := Cls.PackageName(e);
    if pkg.Failure? {
      return Failure(pkg.error);
    }
    r := Success(Output(AdapterFile(pkg.value, e.simpleName + "Adapter", e.qualifiedName, reader.value, writer), factory));
  }
}
