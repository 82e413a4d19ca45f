/**
  AdapterGenerator.java: the older, Java revision of the adapter generator. Its fromJson
  has the same shape as the Kotlin one, but case labels are simple names, only the
  JetBrains Nullable marker makes a parameter optional, no read is null-guarded, byte and
  char raise an IOException, toJson always hands the value to the next adapter, and the
  optional factory compares the requested type with the one class it serves.
*/
module AdapterGeneratorJava {
  import opened Wrappers
  import opened LangModel
  import opened GeneratedAdapter
  import opened FieldReads
  import Cls = AnnotatedClassJava
  import Kt = AdapterGeneratorKt

  /** `field.getAnnotation(Nullable.class) == null`, with the JetBrains Nullable: no annotation, required. */
  predicate IsRequired(f: VarElement) {
    Kt.IntellijNullable !in f.annotations
  }

  function MissingMessage(f: VarElement): string {
    f.name + " is non-optional but was not found in the json"
  }

  // ---- makeType ----

  /** makeType: the same three-way recursion as the Kotlin revision, with its own counter loop over the arguments. */
  method MakeType(t: TypeName) returns (s: string)
    ensures s == Kt.TypeExpr(t)
    decreases t
  {
    match t
    case Parameterized(raw, args) =>
      ghost var parts := seq(|args|, i requires 0 <= i < |args| => Kt.TypeExpr(args[i]));
      var prefix := Kt.NewParameterizedType + raw + ".class, ";
      s := prefix;
      var c := 0;
      while c < |args|
        invariant 0 <= c <= |args|
        invariant s == prefix + Join(parts[..c], ", ")
      {
        var a := MakeType(args[c]);
        AppendPart(prefix, parts, c, s);
        if c != 0 {
          s := s + ", ";
        }
        s := s + a;
        c := c + 1;
      }
      assert parts[..c] == parts;
      s := s + ")";
    case Wildcard(b) =>
      s := MakeType(b);
    case _ =>
      s := SimpleText(t) + ".class";
  }

  /** One turn of makeType's loop: a separator unless first, then the next argument. */
  lemma {:induction false} AppendPart(prefix: string, parts: seq<string>, c: nat, s: string)
    requires c < |parts| && s == prefix + Join(parts[..c], ", ")
    ensures (if c != 0 then s + ", " else s) + parts[c] == prefix + Join(parts[..c + 1], ", ")
  {
    JoinSnoc(parts[..c], parts[c], ", ");
    assert parts[..c + 1] == parts[..c] + [parts[c]];
  }

  // ---- generateReader / generatePrimitive ----

  /** generatePrimitive: the read for each primitive kind; byte and char raise an IOException. */
  function PrimitiveRead(k: PrimKind): Result<ReadCall, GenError> {
    match k
    case Boolean => Success(NextBoolean)
    case Byte => Failure(IOError("Byte not supported"))
    case Short => Success(ShortFromInt)
    case Int => Success(NextInt)
    case Long => Success(NextLong)
    case Char => Failure(IOError("Char not supported"))
    case Float => Success(FloatFromDouble)
    case Double => Success(NextDouble)
  }

  /** generateReader: primitive or boxed first, then String (always nextString), else a delegated adapter. */
  function ReaderCall(f: VarElement): Result<ReadCall, GenError> {
    if f.typ.Primitive? || f.typ.Boxed? then PrimitiveRead(f.typ.kind)
    else if f.typ == StringType then Success(NextString)
    else Success(ViaAdapter(Kt.TypeExpr(f.typ)))
  }

  /** What the reader emits for one constructor parameter: nothing is ever null-guarded. */
  function FieldReadOf(f: VarElement): Result<FieldRead, GenError> {
    match ReaderCall(f)
    case Failure(e) => Failure(e)
    case Success(call) =>
      Success(FieldRead(f.name, Box(f.typ), Case(f.name, f.name, call, false), IsRequired(f), MissingMessage(f)))
  }

  /**
    The read of one parameter: byte and char are refused with an IOException; otherwise
    the case is labelled with the simple name (no @Json override), no read accepts a JSON
    null except through an adapter, and the parameter is required exactly when it lacks the
    JetBrains Nullable marker.
  */
  lemma {:induction false} FieldReadRule(f: VarElement)
    ensures FieldReadOf(f).Failure? <==> Kt.IsByteOrChar(f.typ)
    ensures FieldReadOf(f).Failure? ==>
      FieldReadOf(f).error == IOError(if f.typ.kind == Byte then "Byte not supported" else "Char not supported")
    ensures FieldReadOf(f).Success? ==>
      var r := FieldReadOf(f).value;
      && r.slot == f.name && r.c.slot == f.name && r.c.key == f.name
      && r.boxed == Box(f.typ)
      && !r.c.nullGuard
      && (r.required <==> Kt.IntellijNullable !in f.annotations)
      && r.missing == f.name + " is non-optional but was not found in the json"
      && (f.typ == StringType ==> r.c.call == NextString)
      && (!f.typ.Primitive? && !f.typ.Boxed? && f.typ != StringType ==> r.c.call == ViaAdapter(Kt.TypeExpr(f.typ)))
  {
  }

  /** The reads of all parameters, or the error of the first parameter that has none. */
  function ReadsOf(fs: seq<VarElement>): Result<seq<FieldRead>, GenError>
    decreases |fs|
  {
    if |fs| == 0 then Success([])
    else
      match FieldReadOf(fs[0])
      case Failure(e) => Failure(e)
      case Success(p) =>
        match ReadsOf(fs[1..])
        case Failure(e) => Failure(e)
        case Success(ps) => Success([p] + ps)
  }

  /** The reads exist exactly when every parameter has one, and then they are those, in order. */
  lemma {:induction false} ReadsOfRule(fs: seq<VarElement>)
    ensures ReadsOf(fs).Success? <==> forall i :: 0 <= i < |fs| ==> FieldReadOf(fs[i]).Success?
    ensures ReadsOf(fs).Success? ==>
      |ReadsOf(fs).value| == |fs| && forall i :: 0 <= i < |fs| ==> ReadsOf(fs).value[i] == FieldReadOf(fs[i]).value
    decreases |fs|
  {
    if |fs| > 0 {
      ReadsOfRule(fs[1..]);
      assert forall j :: 1 <= j < |fs| ==> fs[j] == fs[1..][j - 1];
    }
  }

  /** ReadsOf fails with the error of the first parameter that has no read. */
  lemma {:induction false} ReadsOfFirstFailure(fs: seq<VarElement>, i: int)
    requires 0 <= i < |fs| && FieldReadOf(fs[i]).Failure?
    requires forall j :: 0 <= j < i ==> FieldReadOf(fs[j]).Success?
    ensures ReadsOf(fs) == Failure(FieldReadOf(fs[i]).error)
    decreases i
  {
    if i > 0 {
      assert forall j :: 0 <= j < i - 1 ==> fs[1..][j] == fs[j + 1];
      ReadsOfFirstFailure(fs[1..], i - 1);
    }
  }

  /** What the read of parameter i records about it. */
  lemma {:induction false} ReadAt(fs: seq<VarElement>, i: int)
    requires ReadsOf(fs).Success? && 0 <= i < |fs|
    ensures |ReadsOf(fs).value| == |fs|
    ensures var p := ReadsOf(fs).value[i];
      && p.slot == fs[i].name && p.c.slot == fs[i].name && p.boxed == Box(fs[i].typ)
      && p.c.key == fs[i].name && !p.c.nullGuard
      && (p.required <==> IsRequired(fs[i]))
      && p.missing == MissingMessage(fs[i])
      && (fs[i].typ == StringType ==> p.c.call == NextString)
  {
    ReadsOfRule(fs);
    FieldReadRule(fs[i]);
  }

  /** Every parameter's read, stated at once. */
  lemma {:induction false} ReadsFacts(fs: seq<VarElement>)
    requires ReadsOf(fs).Success?
    ensures |ReadsOf(fs).value| == |fs|
    ensures forall i :: 0 <= i < |fs| ==>
      var p := ReadsOf(fs).value[i];
      && p.slot == fs[i].name && p.c.slot == fs[i].name && p.c.key == fs[i].name
      && p.boxed == Box(fs[i].typ)
      && (p.required <==> IsRequired(fs[i]))
      && p.missing == MissingMessage(fs[i])
  {
    ReadsOfRule(fs);
    forall i | 0 <= i < |fs| {
      ReadAt(fs, i);
    }
  }

  /** Parameter names are distinct; Java guarantees it. */
  predicate DistinctNames(fs: seq<VarElement>) {
    forall i, j :: 0 <= i < j < |fs| ==> fs[i].name != fs[j].name
  }

  lemma {:induction false} ReadsWellFormed(fs: seq<VarElement>)
    requires ReadsOf(fs).Success? && DistinctNames(fs)
    ensures WellFormed(ReadsOf(fs).value)
  {
    ReadsFacts(fs);
  }

  /** The fromJson body for a class cls whose constructor parameters are fs. */
  function ReaderOf(cls: string, fs: seq<VarElement>): Result<seq<ReaderStmt>, GenError> {
    match ReadsOf(fs)
    case Failure(err) => Failure(err)
    case Success(ps) => Success(Block(cls, ps))
  }

  /** createReaderBlock, as a value: getFields, then the reads, then the fixed shape. */
  function ReaderBlockOf(e: TypeElement): Result<seq<ReaderStmt>, GenError> {
    match Cls.GetFieldsOf(e)
    case Failure(err) => Failure(err)
    case Success(fs) => ReaderOf(e.qualifiedName, fs)
  }

  // ---- createReaderBlock ----

  /** The switch loop of createReaderBlock: one case per parameter, stopping at the first byte or char. */
  method SwitchCases(fs: seq<VarElement>) returns (r: Result<seq<Case>, GenError>)
    ensures r.Success? <==> ReadsOf(fs).Success?
    ensures r.Success? ==> r.value == CasesOf(ReadsOf(fs).value)
    ensures r.Failure? ==> r.error == ReadsOf(fs).error
  {
    ReadsOfRule(fs);
    var cases: seq<Case> := [];
    for i := 0 to |fs|
      invariant |cases| == i
      invariant forall j :: 0 <= j < i ==> FieldReadOf(fs[j]).Success? && cases[j] == FieldReadOf(fs[j]).value.c
    {
      var read := FieldReadOf(fs[i]);
      if read.Failure? {
        ReadsOfFirstFailure(fs, i);
        return Failure(read.error);
      }
      cases := cases + [read.value.c];
    }
    return Success(cases);
  }

  /** generateNullChecks: a throwing null check for each parameter without the JetBrains Nullable. */
  method NullChecks(fs: seq<VarElement>) returns (checks: seq<ReaderStmt>)
    requires ReadsOf(fs).Success?
    ensures checks == Checks(ReadsOf(fs).value)
  {
    ghost var ps := ReadsOf(fs).value;
    checks := [];
    ReadsLength(fs);
    assert ps[0..] == ps;
    for i := 0 to |fs|
      invariant checks + Checks(ps[i..]) == Checks(ps)
    {
      ReadAt(fs, i);
      ChecksStep(ps, i, checks);
      if Kt.IntellijNullable !in fs[i].annotations {
        checks := checks + [RequireSlot(fs[i].name, fs[i].name + " is non-optional but was not found in the json")];
      }
    }
    assert ps[|fs|..] == [];
  }

  /** The declarations and the constructor arguments of the block, read off the parameters alone. */
  lemma {:induction false} ReaderParts(fs: seq<VarElement>, decls: seq<ReaderStmt>, args: seq<string>)
    requires ReadsOf(fs).Success?
    requires |decls| == |fs| && forall j :: 0 <= j < |fs| ==> decls[j] == DeclareSlot(Box(fs[j].typ), fs[j].name)
    requires |args| == |fs| && forall j :: 0 <= j < |fs| ==> args[j] == fs[j].name
    ensures decls == Decls(ReadsOf(fs).value) && args == Args(ReadsOf(fs).value)
  {
    ReadsFacts(fs);
  }

  /**
    createReaderBlock: the declarations, the read loop, the null checks and the constructor
    call, whose arguments are the locals in parameter order.
  */
  method CreateReaderBlock(e: TypeElement) returns (r: Result<seq<ReaderStmt>, GenError>)
    ensures r == ReaderBlockOf(e)
  {
    var fr := Cls.GetFields(e);
    if fr.Failure? {
      return Failure(fr.error);
    }
    var fs := fr.value;
    var decls := Kt.DeclareLocals(fs);
    var cases := SwitchCases(fs);
    if cases.Failure? {
      return Failure(cases.error);
    }
    var checks := NullChecks(fs);
    var args: seq<string> := [];
    for c := 0 to |fs|
      invariant |args| == c && forall j :: 0 <= j < c ==> args[j] == fs[j].name
    {
      args := args + [fs[c].name];
    }
    ReaderParts(fs, decls, args);
    r := Success(decls + [BeginObject, ReadLoop(cases.value), EndObject] + checks + [ReturnNew(e.qualifiedName, args)]);
  }

  // ---- what the generated fromJson does ----

  /**
    The shape of a generated fromJson: one null-initialised local per parameter, in order;
    one case per parameter labelled with its simple name; no null guard anywhere; the
    constructor call passing the locals by position.
  */
  lemma {:induction false} ReaderShape(cls: string, fs: seq<VarElement>)
    requires ReadsOf(fs).Success?
    ensures ReaderOf(cls, fs).Success?
    ensures var b := ReaderOf(cls, fs).value;
      && |b| == |fs| + 4 + |Checks(ReadsOf(fs).value)|
      && (forall i :: 0 <= i < |fs| ==> b[i] == DeclareSlot(Box(fs[i].typ), fs[i].name))
      && b[|fs|] == BeginObject && b[|fs| + 2] == EndObject
      && b[|fs| + 1].ReadLoop? && |b[|fs| + 1].cases| == |fs|
      && (forall i :: 0 <= i < |fs| ==>
            b[|fs| + 1].cases[i].key == fs[i].name && b[|fs| + 1].cases[i].slot == fs[i].name
              && !b[|fs| + 1].cases[i].nullGuard)
      && b[|b| - 1] == ReturnNew(cls, seq(|fs|, i requires 0 <= i < |fs| => fs[i].name))
  {
    var ps := ReadsOf(fs).value;
    ReadsLength(fs);
    forall i | 0 <= i < |fs|
      ensures ps[i].c.key == fs[i].name && ps[i].c.slot == fs[i].name && !ps[i].c.nullGuard
      ensures ps[i].boxed == Box(fs[i].typ) && ps[i].slot == fs[i].name
    {
      ReadAt(fs, i);
    }
    assert ReaderOf(cls, fs) == Success(Block(cls, ps));
    BlockLayout(cls, ps);
    assert Args(ps) == seq(|fs|, i requires 0 <= i < |fs| => fs[i].name);
  }

  lemma {:induction false} ReadsLength(fs: seq<VarElement>)
    requires ReadsOf(fs).Success?
    ensures |ReadsOf(fs).value| == |fs|
  {
    ReadsOfRule(fs);
  }

  /** A member whose name is no parameter's simple name is skipped. */
  lemma {:induction false} UnknownKeySkipped(cls: string, fs: seq<VarElement>, a: seq<(string, Json)>, k: string, v: Json,
                          b: seq<(string, Json)>)
    requires ReadsOf(fs).Success?
    requires forall i :: 0 <= i < |fs| ==> fs[i].name != k
    ensures FromJson(ReaderOf(cls, fs).value, JObject(a + [(k, v)] + b))
         == FromJson(ReaderOf(cls, fs).value, JObject(a + b))
  {
    ReadsFacts(fs);
    BlockIgnoresUnknown(cls, ReadsOf(fs).value, a, k, v, b);
  }

  /**
    A String parameter cannot be given a JSON null: with no null guard, nextString meets the
    null and the generated fromJson throws, whether or not the parameter is marked Nullable.
  */
  lemma {:induction false} NullStringRejected(cls: string, fs: seq<VarElement>, i: int)
    requires ReadsOf(fs).Success? && DistinctNames(fs)
    requires 0 <= i < |fs| && fs[i].typ == StringType
    ensures FromJson(ReaderOf(cls, fs).value, JObject([(fs[i].name, JNull)])) == Threw(JsonDataException("a string"))
  {
    var ps := ReadsOf(fs).value;
    ReadsLength(fs);
    ReadsWellFormed(fs);
    ReadAt(fs, i);
    DispatchOwnCase(ps, i);
    var ms := [(fs[i].name, JNull)];
    assert LoopStep(CasesOf(ps), Start(ps), ms[0]) == Failure(JsonDataException("a string"));
    assert Loop(CasesOf(ps), Start(ps), ms) == Failure(JsonDataException("a string"));
    BlockLoopFails(cls, ps, ms);
  }

  /**
    The generated fromJson over an object that leaves a required parameter unset throws
    the IOException naming the first such parameter by its simple name.
  */
  lemma {:induction false} FromJsonMissing(cls: string, fs: seq<VarElement>, ms: seq<(string, Json)>, k: int)
    requires ReadsOf(fs).Success? && DistinctNames(fs)
    requires var ps := ReadsOf(fs).value; Loop(CasesOf(ps), Start(ps), ms).Success?
    requires |ReadsOf(fs).value| == |fs| && 0 <= k < |fs| && IsRequired(fs[k])
    requires Track(ReadsOf(fs).value[k].c, None, ms).None?
    ensures exists i :: (0 <= i <= k && IsRequired(fs[i])
      && FromJson(ReaderOf(cls, fs).value, JObject(ms)) == Threw(IOException(MissingMessage(fs[i]))))
  {
    var ps := ReadsOf(fs).value;
    ReadsLength(fs);
    ReadsWellFormed(fs);
    ReadAt(fs, k);
    assert Values(ps, ms)[k].None? && ps[k].required;
    assert !AllRequiredSet(ps, ms);
    BlockMissing(cls, ps, ms);
    var i :| FirstUnset(ps, ms, i) && FromJson(Block(cls, ps), JObject(ms)) == Threw(IOException(ps[i].missing));
    ReadAt(fs, i);
    assert i <= k;
  }

  /**
    Reading back: an object holding, under each parameter's simple name, a value its read
    accepts (not null for a required one) constructs the class from exactly those values.
  */
  lemma {:induction false} ReadsBackBySimpleName(cls: string, fs: seq<VarElement>, vals: seq<Json>)
    requires ReadsOf(fs).Success? && |ReadsOf(fs).value| == |fs| && DistinctNames(fs) && |vals| == |fs|
    requires forall i :: 0 <= i < |fs| ==>
      var c := ReadsOf(fs).value[i].c;
      Read(c.call, false, vals[i]).Success? && (IsRequired(fs[i]) ==> Read(c.call, false, vals[i]).value.Some?)
    ensures var ps := ReadsOf(fs).value;
      FromJson(ReaderOf(cls, fs).value, JObject(seq(|fs|, i requires 0 <= i < |fs| => (fs[i].name, vals[i]))))
        == Constructed(cls, seq(|fs|, i requires 0 <= i < |fs| => Read(ps[i].c.call, false, vals[i]).value))
  {
    var ps := ReadsOf(fs).value;
    ReadsLength(fs);
    ReadsWellFormed(fs);
    forall i | 0 <= i < |fs|
      ensures ps[i].c.key == fs[i].name && !ps[i].c.nullGuard && (ps[i].required <==> IsRequired(fs[i]))
    {
      ReadAt(fs, i);
    }
    assert Pairs(ps, vals) == seq(|fs|, i requires 0 <= i < |fs| => (fs[i].name, vals[i]));
    ReadsBack(cls, ps, vals);
    assert ReaderOf(cls, fs) == Success(Block(cls, ps));
  }

  // ---- against the Kotlin revision ----

  /**
    For a parameter with neither a @Json name nor a Nullable marker the two revisions emit
    the same read, and fail on byte and char with the same text (an IOException here).
  */
  lemma {:induction false} FieldReadAgreesWithKotlin(f: VarElement)
    requires f.jsonName.None? && !Kt.IsNullable(f.annotations)
    ensures FieldReadOf(f) == Cls.AsIOError(Kt.FieldReadOf(f))
  {
  }

  /**
    Where the revisions part on null handling: a String parameter with a Nullable marker
    accepts a JSON null in the Kotlin revision and is refused by the Java one.
  */
  lemma {:induction false} NullableStringDiffers(f: VarElement)
    requires f.typ == StringType && Kt.IsNullable(f.annotations)
    ensures Kt.FieldReadOf(f).Success? && FieldReadOf(f).Success?
    ensures var k := Kt.FieldReadOf(f).value.c; Read(k.call, k.nullGuard, JNull) == Success(None)
    ensures var j := FieldReadOf(f).value.c; Read(j.call, j.nullGuard, JNull).Failure?
  {
  }

  // ---- createToJson ----

  /** createToJson: the single statement `moshi.nextAdapter(factory, type, annotations).toJson(writer, value)`. */
  const ToJsonBlock: seq<WriterStmt> := [DelegateToNext]

  /** toJson writes nothing of its own: the whole value, null or not, goes to the next adapter. */
  lemma {:induction false} ToJsonDelegates(value: Option<Instance>)
    ensures ToJson(ToJsonBlock, value) == Success([TNextAdapter])
  {
    Kt.ToJsonCons(DelegateToNext, [], value, [TNextAdapter], []);
    assert ToJsonBlock == [DelegateToNext] + [];
    assert [TNextAdapter] + [] == [TNextAdapter];
  }

  /** It is the Kotlin writer of a class annotated with generateWriter = false. */
  lemma {:induction false} ToJsonIsKotlinWithoutWriter(e: TypeElement)
    requires !e.options.generateWriter
    ensures ToJsonBlock == Kt.WriterBlockOf(e)
  {
  }

  // ---- createFactoryBlock / generate ----

  /**
    The one-class factory: `public class <Simple>AdapterFactory implements JsonAdapter.Factory`,
    whose create is `if (type == <Class>.class) return new <adapterClass>(moshi, this, type,
    annotations); return null;`.
  */
  datatype FactoryFile = FactoryFile(className: string, packageName: string, adaptedClass: string, adapterClass: string)

  /** The generated create: the adapter class it instantiates for type t, or None for null. */
  function FactoryCreate(f: FactoryFile, t: string): (r: Option<string>)
    ensures r.Some? <==> t == f.adaptedClass
    ensures r.Some? ==> r.value == f.adapterClass
  {
    if t == f.adaptedClass then Some(f.adapterClass) else None
  }

  datatype Output = Output(adapter: Kt.AdapterFile, factory: Option<FactoryFile>)

  /** generate, as a value: reader errors first, then the package lookup. */
  function GenerateOf(e: TypeElement): Result<Output, GenError> {
    match ReaderBlockOf(e)
    case Failure(err) => Failure(err)
    case Success(reader) =>
      match Cls.GetPackageOf(e)
      case Failure(err) => Failure(err)
      case Success(pkg) =>
        Success(Output(
          Kt.AdapterFile(pkg, e.simpleName + "Adapter", e.qualifiedName, reader, ToJsonBlock),
          if e.options.generateFactory then
            Some(FactoryFile(e.simpleName + "AdapterFactory", pkg, e.qualifiedName, e.qualifiedName + "Adapter"))
          else None))
  }

  /**
    generate: build fromJson, toJson and the constructor, then (on request) the factory in
    the class's package, then the adapter in the same package.
  */
  method Generate(e: TypeElement) returns (r: Result<Output, GenError>)
    ensures r == GenerateOf(e)
    ensures r.Success? ==>
      && Cls.GetPackageOf(e) == Success(r.value.adapter.packageName)
      && r.value.adapter.className == e.simpleName + "Adapter"
      && r.value.adapter.reader == ReaderBlockOf(e).value
      && r.value.adapter.writer == ToJsonBlock
      && (r.value.factory.Some? <==> e.options.generateFactory)
    ensures r.Success? && r.value.factory.Some? ==>
      var f := r.value.factory.value;
      && f.className == e.simpleName + "AdapterFactory"
      && f.packageName == r.value.adapter.packageName
      && (forall t :: FactoryCreate(f, t) == if t == e.qualifiedName then Some(e.qualifiedName + "Adapter") else None)
    ensures r.Failure? ==> ReaderBlockOf(e).Failure? || Cls.GetPackageOf(e).Failure?
  {
    var reader := CreateReaderBlock(e);
    if reader.Failure? {
      return Failure(reader.error);
    }
    var writer := ToJsonBlock;
    var factory: Option<FactoryFile> := None;
    var pkg: Result<string, GenError>;
    if e.options.generateFactory {
      pkg := Cls.GetPackage(e);
      if pkg.Failure? {
        return Failure(pkg.error);
      }
      factory := Some(FactoryFile(e.simpleName + "AdapterFactory", pkg.value, e.qualifiedName, e.qualifiedName + "Adapter"));
    }
    pkg := Cls.GetPackage(e);
    if pkg.Failure? {
      return Failure(pkg.error);
    }
    r := Success(Output(Kt.AdapterFile(pkg.value, e.simpleName + "Adapter", e.qualifiedName, reader.value, writer), factory));
  }

  /**
    The factory's create names `<qualified name>Adapter`, while the adapter is generated as
    `<package>.<simple name>Adapter`: the two agree exactly when the class sits directly in
    its package, not inside another class.
  */
  lemma {:induction false} FactoryNamesAdapter(e: TypeElement)
    requires GenerateOf(e).Success? && GenerateOf(e).value.factory.Some?
    ensures var o := GenerateOf(e).value;
      (o.factory.value.adapterClass == o.adapter.packageName + "." + o.adapter.className)
        <==> (e.qualifiedName == o.adapter.packageName + "." + e.simpleName)
  {
    var o := GenerateOf(e).value;
    var pkg := o.adapter.packageName;
    if e.qualifiedName + "Adapter" == pkg + "." + e.simpleName + "Adapter" {
      var n := |e.qualifiedName|;
      assert (e.qualifiedName + "Adapter")[..n] == e.qualifiedName;
      assert (pkg + "." + e.simpleName + "Adapter")[..n] == pkg + "." + e.simpleName;
    }
  }
}
