/**
  ProcessorFactory.kt: one annotation-processing round. Every @GenerateMoshi element gets an
  adapter (and, on request, its own factory); then every @GenerateMoshiFactory element gets a
  factory, with warnings for classes listed twice and for classes no factory serves. The
  first error ends the round with one ERROR diagnostic; files already written stay written.
*/
module ProcessorFactoryKt {
  import opened Wrappers
  import opened LangModel
  import Cls = AnnotatedClassKt
  import Kt = AdapterGeneratorKt
  import FactoryGenerator
  import opened FactoryAnnotations

  /** What the round reports through the Messager. */
  datatype Diagnostic = ErrorMessage(text: string) | WarningMessage(text: string)

  /** The exception's message as the round prints it. */
  function ErrorText(err: GenError): string {
    match err
    case AnnotationError(m) => m
    case IOError(m) => m
    case Uninitialized(p) => "lateinit property " + p + " has not been initialized"
  }

  function NotAClassMessage(e: TypeElement): string {
    "Only classes can be annotated with @GenerateMoshi (" + e.simpleName + ")"
  }

  function DuplicateMessage(c: string): string {
    "Class '" + c + "' is registered in multiple factories"
  }

  function UnregisteredMessage(qualifiedName: string): string {
    "Class '" + qualifiedName + "' is not registered in any factory"
  }

  // ---- processDataClasses ----

  /** The classes accepted so far, the adapters written so far, and the error that stopped the loop. */
  datatype DataClasses = DataClasses(classes: seq<TypeElement>, adapters: seq<Kt.Output>, error: Option<GenError>)

  /** What writes one class's adapter: AdapterGenerator.generate in the processor. */
  type Generator = TypeElement -> Result<Kt.Output, GenError>

  /** One element: the kind check, checkValid, then the class is kept and its adapter generated. */
  function DataClassStep(gen: Generator, d: DataClasses, e: TypeElement): DataClasses {
    if e.kind != ClassKind then d.(error := Some(AnnotationError(NotAClassMessage(e))))
    else
      match Cls.CheckValid(e)
      case Some(err) => d.(error := Some(err))
      case None =>
        match gen(e)
        case Failure(err) => DataClasses(d.classes + [e], d.adapters, Some(err))
        case Success(o) => DataClasses(d.classes + [e], d.adapters + [o], None)
  }

  /** The loop from state d over es: an error stops it. */
  function DataClassesFrom(gen: Generator, d: DataClasses, es: seq<TypeElement>): DataClasses
    decreases |es|
  {
    if |es| == 0 || d.error.Some? then d else DataClassesFrom(gen, DataClassStep(gen, d, es[0]), es[1..])
  }

  function DataClassesOf(es: seq<TypeElement>): DataClasses {
    DataClassesFrom(Kt.GenerateOf, DataClasses([], [], None), es)
  }

  /** processDataClasses */
  method ProcessDataClasses(es: seq<TypeElement>) returns (d: DataClasses)
    ensures d == DataClassesOf(es)
  {
    d := DataClasses([], [], None);
    for i := 0 to |es|
      invariant DataClassesFrom(Kt.GenerateOf, d, es[i..]) == DataClassesOf(es)
    {
      if d.error.Some? {
        return;
      }
      assert es[i..][1..] == es[i + 1..];
      var e := es[i];
      if e.kind != ClassKind {
        d := d.(error := Some(AnnotationError(NotAClassMessage(e))));
      } else {
        var invalid := Cls.CheckValid(e);
        if invalid.Some? {
          d := d.(error := invalid);
        } else {
          d := d.(classes := d.classes + [e]);
          var r := Kt.Generate(e);
          if r.Failure? {
            d := d.(error := Some(r.error));
          } else {
            d := d.(adapters := d.adapters + [r.value]);
          }
        }
      }
    }
  }

  /** An element passes when it is a public, non-abstract class whose adapter can be generated. */
  predicate AcceptedBy(gen: Generator, e: TypeElement) {
    e.kind == ClassKind && Public in e.modifiers && Abstract !in e.modifiers && gen(e).Success?
  }

  predicate Accepted(e: TypeElement) {
    AcceptedBy(Kt.GenerateOf, e)
  }

  /** An accepted element is kept and its adapter appended. */
  lemma {:induction false} StepAccepts(gen: Generator, d: DataClasses, e: TypeElement)
    requires AcceptedBy(gen, e)
    ensures DataClassStep(gen, d, e) == DataClasses(d.classes + [e], d.adapters + [gen(e).value], None)
  {
    assert Cls.CheckValid(e).None?;
  }

  /** Any other element records its rejection and writes nothing. */
  lemma {:induction false} StepRejects(gen: Generator, d: DataClasses, e: TypeElement)
    requires !AcceptedBy(gen, e)
    ensures DataClassStep(gen, d, e).error == Some(Rejection(gen, e))
    ensures DataClassStep(gen, d, e).adapters == d.adapters
  {
  }

  lemma {:induction false} DataClassesFromAllAccepted(gen: Generator, d: DataClasses, es: seq<TypeElement>)
    requires d.error.None? && forall i :: 0 <= i < |es| ==> AcceptedBy(gen, es[i])
    ensures DataClassesFrom(gen, d, es).error.None?
    ensures DataClassesFrom(gen, d, es).classes == d.classes + es
    ensures |DataClassesFrom(gen, d, es).adapters| == |d.adapters| + |es|
    ensures DataClassesFrom(gen, d, es).adapters[..|d.adapters|] == d.adapters
    ensures forall i :: 0 <= i < |es| ==> gen(es[i]) == Success(DataClassesFrom(gen, d, es).adapters[|d.adapters| + i])
    decreases |es|
  {
    if |es| > 0 {
      var d' := DataClassStep(gen, d, es[0]);
      StepAccepts(gen, d, es[0]);
      assert forall i :: 0 <= i < |es| - 1 ==> es[1..][i] == es[i + 1];
      DataClassesFromAllAccepted(gen, d', es[1..]);
      assert d.classes + [es[0]] + es[1..] == d.classes + es;
      var r := DataClassesFrom(gen, d', es[1..]);
      assert r.adapters[|d.adapters|] == r.adapters[..|d'.adapters|][|d.adapters|];
      assert r.adapters[..|d.adapters|] == r.adapters[..|d'.adapters|][..|d.adapters|];
    } else {
      assert d.adapters[..|d.adapters|] == d.adapters;
    }
  }

  /**
    When every element is accepted the loop finishes: every element is kept, in order, and
    the i-th adapter written is the i-th element's.
  */
  lemma {:induction false} DataClassesAllAccepted(es: seq<TypeElement>)
    requires forall i :: 0 <= i < |es| ==> Accepted(es[i])
    ensures DataClassesOf(es).error.None? && DataClassesOf(es).classes == es
    ensures |DataClassesOf(es).adapters| == |es|
    ensures forall i :: 0 <= i < |es| ==> Kt.GenerateOf(es[i]) == Success(DataClassesOf(es).adapters[i])
  {
    DataClassesFromAllAccepted(Kt.GenerateOf, DataClasses([], [], None), es);
  }

  /** The error an element that is not accepted raises. */
  function Rejection(gen: Generator, e: TypeElement): GenError
    requires !AcceptedBy(gen, e)
  {
    if e.kind != ClassKind then AnnotationError(NotAClassMessage(e))
    else if Cls.CheckValid(e).Some? then Cls.CheckValid(e).value
    else gen(e).error
  }

  lemma {:induction false} DataClassesFromRejects(gen: Generator, d: DataClasses, es: seq<TypeElement>, k: nat)
    requires d.error.None? && k < |es| && !AcceptedBy(gen, es[k])
    requires forall i :: 0 <= i < k ==> AcceptedBy(gen, es[i])
    ensures DataClassesFrom(gen, d, es).error == Some(Rejection(gen, es[k]))
    ensures |DataClassesFrom(gen, d, es).adapters| == |d.adapters| + k
    ensures DataClassesFrom(gen, d, es).adapters[..|d.adapters|] == d.adapters
    ensures forall i :: 0 <= i < k ==> gen(es[i]) == Success(DataClassesFrom(gen, d, es).adapters[|d.adapters| + i])
    decreases k
  {
    var d' := DataClassStep(gen, d, es[0]);
    if k == 0 {
      StepRejects(gen, d, es[0]);
      assert DataClassesFrom(gen, d', es[1..]) == d';
      assert d.adapters[..|d.adapters|] == d.adapters;
    } else {
      StepAccepts(gen, d, es[0]);
      assert forall i :: 0 <= i < |es| - 1 ==> es[1..][i] == es[i + 1];
      DataClassesFromRejects(gen, d', es[1..], k - 1);
      var r := DataClassesFrom(gen, d', es[1..]);
      assert r.adapters[|d.adapters|] == r.adapters[..|d'.adapters|][|d.adapters|];
      assert r.adapters[..|d.adapters|] == r.adapters[..|d'.adapters|][..|d.adapters|];
    }
  }

  /**
    The first element that is not accepted stops the loop with its error; the adapters
    written are exactly those of the elements before it.
  */
  lemma {:induction false} DataClassesFirstRejection(es: seq<TypeElement>, k: nat)
    requires k < |es| && !Accepted(es[k])
    requires forall i :: 0 <= i < k ==> Accepted(es[i])
    ensures DataClassesOf(es).error == Some(Rejection(Kt.GenerateOf, es[k]))
    ensures |DataClassesOf(es).adapters| == k
    ensures forall i :: 0 <= i < k ==> Kt.GenerateOf(es[i]) == Success(DataClassesOf(es).adapters[i])
  {
    DataClassesFromRejects(Kt.GenerateOf, DataClasses([], [], None), es, k);
  }

  // ---- processFactory ----

  /** knownClasses after a factory's list, and the warnings printed on the way. */
  datatype Registry = Registry(known: set<string>, warnings: seq<Diagnostic>)

  /** The forEach over one factory's classes: a class already known is reported, a new one is added. */
  function RegisterOf(known: set<string>, cs: seq<string>): Registry
    decreases |cs|
  {
    if |cs| == 0 then Registry(known, [])
    else
      var r := RegisterOf(known, cs[..|cs| - 1]);
      var c := cs[|cs| - 1];
      if c in r.known then Registry(r.known, r.warnings + [WarningMessage(DuplicateMessage(c))])
      else Registry(r.known + {c}, r.warnings)
  }

  method Register(known: set<string>, cs: seq<string>) returns (r: Registry)
    ensures r == RegisterOf(known, cs)
  {
    r := Registry(known, []);
    for i := 0 to |cs|
      invariant r == RegisterOf(known, cs[..i])
    {
      assert cs[..i + 1][..i] == cs[..i];
      if cs[i] in r.known {
        r := r.(warnings := r.warnings + [WarningMessage(DuplicateMessage(cs[i]))]);
      } else {
        r := r.(known := r.known + {cs[i]});
      }
    }
    assert cs[..|cs|] == cs;
  }

  /** Afterwards the known classes are the ones known before plus every listed class. */
  lemma {:induction false} RegisterKnown(known: set<string>, cs: seq<string>)
    ensures RegisterOf(known, cs).known == known + set i | 0 <= i < |cs| :: cs[i]
    decreases |cs|
  {
    if |cs| > 0 {
      var init := cs[..|cs| - 1];
      RegisterKnown(known, init);
      assert (set i | 0 <= i < |cs| :: cs[i]) == (set i | 0 <= i < |init| :: init[i]) + {cs[|cs| - 1]};
    }
  }

  /** Every listed class either joins the known set or draws exactly one warning. */
  lemma {:induction false} RegisterCount(known: set<string>, cs: seq<string>)
    ensures |RegisterOf(known, cs).known| + |RegisterOf(known, cs).warnings| == |known| + |cs|
    decreases |cs|
  {
    if |cs| > 0 {
      RegisterCount(known, cs[..|cs| - 1]);
    }
  }

  /** The warnings only grow as the list goes on. */
  lemma {:induction false} RegisterPrefix(known: set<string>, cs: seq<string>, j: nat)
    requires j <= |cs|
    ensures RegisterOf(known, cs[..j]).warnings <= RegisterOf(known, cs).warnings
    ensures RegisterOf(known, cs[..j]).known <= RegisterOf(known, cs).known
    decreases |cs| - j
  {
    if j < |cs| {
      var init := cs[..|cs| - 1];
      assert init[..j] == cs[..j];
      RegisterPrefix(known, init, j);
    } else {
      assert cs[..j] == cs;
    }
  }

  /** A class that was known already, or appeared earlier in the list, draws the duplicate warning. */
  lemma {:induction false} RegisterWarnsRepeat(known: set<string>, cs: seq<string>, j: nat)
    requires j < |cs| && (cs[j] in known || cs[j] in cs[..j])
    ensures WarningMessage(DuplicateMessage(cs[j])) in RegisterOf(known, cs).warnings
  {
    var pre := cs[..j + 1];
    assert pre[..j] == cs[..j] && pre[j] == cs[j];
    RegisterKnown(known, cs[..j]);
    if cs[j] in cs[..j] {
      var i :| 0 <= i < j && cs[..j][i] == cs[j];
      assert cs[j] in set i | 0 <= i < |cs[..j]| :: cs[..j][i];
    }
    assert WarningMessage(DuplicateMessage(cs[j])) in RegisterOf(known, pre).warnings;
    RegisterPrefix(known, cs, j + 1);
  }

  /** Every duplicate warning is about a class that was known already or appeared earlier in the list. */
  lemma {:induction false} RegisterWarnsOnlyRepeats(known: set<string>, cs: seq<string>)
    ensures forall w :: w in RegisterOf(known, cs).warnings ==>
      exists j :: 0 <= j < |cs| && w == WarningMessage(DuplicateMessage(cs[j])) && (cs[j] in known || cs[j] in cs[..j])
    decreases |cs|
  {
    if |cs| > 0 {
      var n := |cs| - 1;
      var init := cs[..n];
      RegisterWarnsOnlyRepeats(known, init);
      RegisterKnown(known, init);
      forall w | w in RegisterOf(known, cs).warnings
        ensures exists j :: 0 <= j < |cs| && w == WarningMessage(DuplicateMessage(cs[j])) && (cs[j] in known || cs[j] in cs[..j])
      {
        if w in RegisterOf(known, init).warnings {
          var j :| 0 <= j < |init| && w == WarningMessage(DuplicateMessage(init[j])) && (init[j] in known || init[j] in init[..j]);
          assert init[j] == cs[j] && init[..j] == cs[..j];
        } else {
          assert w == WarningMessage(DuplicateMessage(cs[n]));
          var c := cs[n];
          assert c in RegisterOf(known, init).known;
          if c !in known {
            var i :| 0 <= i < |init| && init[i] == c;
            assert cs[..n][i] == c;
          }
        }
      }
    }
  }

  /** What processFactory has done so far; error is the exception that stopped it. */
  datatype FactoryRun = FactoryRun(
    known: set<string>,
    factoryCount: nat,
    factories: seq<FactoryGenerator.FactoryFile>,
    warnings: seq<Diagnostic>,
    error: Option<GenError>)

  /**
    One @GenerateMoshiFactory element: reading moshiClasses fails when no value list was read;
    otherwise the factory is generated, its classes registered, and the count goes up.
  */
  function FactoryStep(run: FactoryRun, fe: FactoryElement): FactoryRun
    requires WellTyped(fe)
  {
    var s := InitOf(fe);
    match s.classes
    case None => run.(error := Some(Uninitialized("moshiClasses")))
    case Some(cs) =>
      var reg := RegisterOf(run.known, cs);
      FactoryRun(reg.known, run.factoryCount + 1,
                 run.factories + [FactoryGenerator.FactoryOf(s.className, MakePackage(s.rawPackage, fe), cs)],
                 run.warnings + reg.warnings, None)
  }

  function FactoriesFrom(run: FactoryRun, fes: seq<FactoryElement>): FactoryRun
    requires forall i :: 0 <= i < |fes| ==> WellTyped(fes[i])
    decreases |fes|
  {
    if |fes| == 0 || run.error.Some? then run else FactoriesFrom(FactoryStep(run, fes[0]), fes[1..])
  }

  /** The classes no factory serves and that do not generate their own factory. */
  function Unregistered(classes: seq<TypeElement>, known: set<string>): seq<Diagnostic>
    decreases |classes|
  {
    if |classes| == 0 then []
    else
      var c := classes[|classes| - 1];
      Unregistered(classes[..|classes| - 1], known)
        + (if Unserved(c, known) then [WarningMessage(UnregisteredMessage(c.qualifiedName))] else [])
  }

  function ProcessFactoryOf(fes: seq<FactoryElement>, classes: seq<TypeElement>): FactoryRun
    requires forall i :: 0 <= i < |fes| ==> WellTyped(fes[i])
  {
    var run := FactoriesFrom(FactoryRun({}, 0, [], [], None), fes);
    if run.error.Some? then run else run.(warnings := run.warnings + Unregistered(classes, run.known))
  }

  /** The filter-and-forEach that reports unregistered classes. */
  method ReportUnregistered(classes: seq<TypeElement>, known: set<string>) returns (ws: seq<Diagnostic>)
    ensures ws == Unregistered(classes, known)
  {
    ws := [];
    for i := 0 to |classes|
      invariant ws == Unregistered(classes[..i], known)
    {
      assert classes[..i + 1][..i] == classes[..i];
      var c := classes[i];
      if Unserved(c, known) {
        ws := ws + [WarningMessage(UnregisteredMessage(c.qualifiedName))];
      }
    }
    assert classes[..|classes|] == classes;
  }

  /** processFactory */
  method ProcessFactory(fes: seq<FactoryElement>, classes: seq<TypeElement>) returns (run: FactoryRun)
    requires forall i :: 0 <= i < |fes| ==> WellTyped(fes[i])
    ensures run == ProcessFactoryOf(fes, classes)
  {
    run := FactoryRun({}, 0, [], [], None);
    for i := 0 to |fes|
      invariant run.error.None?
      invariant FactoriesFrom(run, fes[i..]) == FactoriesFrom(FactoryRun({}, 0, [], [], None), fes)
    {
      assert fes[i..][1..] == fes[i + 1..];
      var clazz := new MoshiFactoryAnnotatedClass(fes[i]);
      var listed := clazz.MoshiClasses();
      if listed.Failure? {
        run := run.(error := Some(listed.error));
        return;
      }
      var f := FactoryGenerator.Generate(clazz.className, clazz.TargetPackage(), listed.value);
      var reg := Register(run.known, listed.value);
      run := FactoryRun(reg.known, run.factoryCount + 1, run.factories + [f], run.warnings + reg.warnings, None);
    }
    var ws := ReportUnregistered(classes, run.known);
    run := run.(warnings := run.warnings + ws);
  }

  /** Every factory element reads a value list. */
  predicate AllListed(fes: seq<FactoryElement>)
    requires forall i :: 0 <= i < |fes| ==> WellTyped(fes[i])
  {
    forall i :: 0 <= i < |fes| ==> InitOf(fes[i]).classes.Some?
  }

  /** The run over listed elements: no error, and one factory per element, appended in order. */
  lemma {:induction false} ListedFactories(run: FactoryRun, fes: seq<FactoryElement>)
    requires forall i :: 0 <= i < |fes| ==> WellTyped(fes[i])
    requires run.error.None? && AllListed(fes)
    ensures var r := FactoriesFrom(run, fes);
      && r.error.None?
      && r.factoryCount == run.factoryCount + |fes|
      && |r.factories| == |run.factories| + |fes|
      && r.factories[..|run.factories|] == run.factories
      && (forall i :: 0 <= i < |fes| ==>
            r.factories[|run.factories| + i] == FactoryGenerator.FactoryOf(
              InitOf(fes[i]).className, MakePackage(InitOf(fes[i]).rawPackage, fes[i]), InitOf(fes[i]).classes.value))
    decreases |fes|
  {
    if |fes| > 0 {
      var run' := FactoryStep(run, fes[0]);
      assert forall i :: 0 <= i < |fes| - 1 ==> fes[1..][i] == fes[i + 1];
      ListedFactories(run', fes[1..]);
      var r := FactoriesFrom(run', fes[1..]);
      assert r.factories[..|run'.factories|] == run'.factories;
      assert r.factories[..|run.factories|] == r.factories[..|run'.factories|][..|run.factories|];
      assert r.factories[|run.factories|] == r.factories[..|run'.factories|][|run.factories|];
    } else {
      assert run.factories[..|run.factories|] == run.factories;
    }
  }

  /** The run over listed elements knows exactly what it knew before and what some element lists. */
  lemma {:induction false} ListedKnown(run: FactoryRun, fes: seq<FactoryElement>)
    requires forall i :: 0 <= i < |fes| ==> WellTyped(fes[i])
    requires run.error.None? && AllListed(fes)
    ensures forall c :: c in FactoriesFrom(run, fes).known <==>
      c in run.known || exists i :: 0 <= i < |fes| && c in InitOf(fes[i]).classes.value
    decreases |fes|
  {
    if |fes| > 0 {
      var cs := InitOf(fes[0]).classes.value;
      var run' := FactoryStep(run, fes[0]);
      RegisterKnown(run.known, cs);
      assert forall i :: 0 <= i < |fes| - 1 ==> fes[1..][i] == fes[i + 1];
      ListedKnown(run', fes[1..]);
      var r := FactoriesFrom(run', fes[1..]);
      forall c | c in r.known
        ensures c in run.known || exists i :: 0 <= i < |fes| && c in InitOf(fes[i]).classes.value
      {
        if c !in run'.known {
          var i :| 0 <= i < |fes[1..]| && c in InitOf(fes[1..][i]).classes.value;
          assert fes[1..][i] == fes[i + 1];
        } else if c !in run.known {
          var j :| 0 <= j < |cs| && cs[j] == c;
        }
      }
      forall c, i | 0 <= i < |fes| && c in InitOf(fes[i]).classes.value
        ensures c in r.known
      {
        if i == 0 {
          var j :| 0 <= j < |cs| && cs[j] == c;
          assert c in set j | 0 <= j < |cs| :: cs[j];
        } else {
          assert fes[1..][i - 1] == fes[i];
        }
      }
    }
  }

  lemma {:induction false} FactoriesFromListed(run: FactoryRun, fes: seq<FactoryElement>)
    requires forall i :: 0 <= i < |fes| ==> WellTyped(fes[i])
    requires run.error.None? && AllListed(fes)
    ensures var r := FactoriesFrom(run, fes);
      && r.error.None?
      && r.factoryCount == run.factoryCount + |fes|
      && |r.factories| == |run.factories| + |fes|
      && r.factories[..|run.factories|] == run.factories
      && (forall c :: c in r.known <==> c in run.known || exists i :: 0 <= i < |fes| && c in InitOf(fes[i]).classes.value)
      && (forall i :: 0 <= i < |fes| ==>
            r.factories[|run.factories| + i] == FactoryGenerator.FactoryOf(
              InitOf(fes[i]).className, MakePackage(InitOf(fes[i]).rawPackage, fes[i]), InitOf(fes[i]).classes.value))
  {
    ListedFactories(run, fes);
    ListedKnown(run, fes);
  }

  /**
    When every factory element lists its classes: one factory per element, in order, built
    from the element's settings; factoryCount is the number of elements; the known classes are
    exactly the classes some factory lists; and the warnings are the duplicate warnings
    followed by the unregistered ones.
  */
  lemma {:induction false} ProcessFactoryListed(fes: seq<FactoryElement>, classes: seq<TypeElement>)
    requires forall i :: 0 <= i < |fes| ==> WellTyped(fes[i])
    requires AllListed(fes)
    ensures var r := ProcessFactoryOf(fes, classes);
      && r.error.None?
      && r.factoryCount == |fes|
      && |r.factories| == |fes|
      && (forall c :: c in r.known <==> exists i :: 0 <= i < |fes| && c in InitOf(fes[i]).classes.value)
      && (forall i :: 0 <= i < |fes| ==>
            r.factories[i] == FactoryGenerator.FactoryOf(
              InitOf(fes[i]).className, MakePackage(InitOf(fes[i]).rawPackage, fes[i]), InitOf(fes[i]).classes.value))
  {
    FactoriesFromListed(FactoryRun({}, 0, [], [], None), fes);
  }

  lemma {:induction false} FactoriesFromUnlisted(run: FactoryRun, fes: seq<FactoryElement>, k: nat)
    requires forall i :: 0 <= i < |fes| ==> WellTyped(fes[i])
    requires run.error.None? && k < |fes| && InitOf(fes[k]).classes.None?
    requires forall i :: 0 <= i < k ==> InitOf(fes[i]).classes.Some?
    ensures FactoriesFrom(run, fes).error == Some(Uninitialized("moshiClasses"))
    ensures |FactoriesFrom(run, fes).factories| == |run.factories| + k
    decreases k
  {
    var run' := FactoryStep(run, fes[0]);
    if k > 0 {
      assert forall i :: 0 <= i < |fes| - 1 ==> fes[1..][i] == fes[i + 1];
      FactoriesFromUnlisted(run', fes[1..], k - 1);
    } else {
      assert FactoriesFrom(run', fes[1..]) == run';
    }
  }

  /**
    A factory element without a value list stops processFactory with the lateinit error,
    after the factories of the elements before it; no unregistered warning is printed then.
  */
  lemma {:induction false} ProcessFactoryUnlisted(fes: seq<FactoryElement>, classes: seq<TypeElement>, k: nat)
    requires forall i :: 0 <= i < |fes| ==> WellTyped(fes[i])
    requires k < |fes| && InitOf(fes[k]).classes.None?
    requires forall i :: 0 <= i < k ==> InitOf(fes[i]).classes.Some?
    ensures ProcessFactoryOf(fes, classes).error == Some(Uninitialized("moshiClasses"))
    ensures |ProcessFactoryOf(fes, classes).factories| == k
  {
    FactoriesFromUnlisted(FactoryRun({}, 0, [], [], None), fes, k);
  }

  /** The classes the unregistered pass reports on. */
  predicate Unserved(c: TypeElement, known: set<string>) {
    c.qualifiedName !in known && !c.options.generateFactory
  }

  /**
    The unregistered warnings name exactly the classes that are not known and do not
    generate their own factory.
  */
  lemma {:induction false} UnregisteredExactly(classes: seq<TypeElement>, known: set<string>)
    ensures forall w :: w in Unregistered(classes, known) <==>
      exists i :: (0 <= i < |classes| && Unserved(classes[i], known)
        && w == WarningMessage(UnregisteredMessage(classes[i].qualifiedName)))
    decreases |classes|
  {
    if |classes| > 0 {
      var init := classes[..|classes| - 1];
      UnregisteredExactly(init, known);
      assert forall i :: 0 <= i < |init| ==> init[i] == classes[i];
    }
  }

  /** One warning per reported class: as many warnings as positions holding such a class. */
  lemma {:induction false} UnregisteredCount(classes: seq<TypeElement>, known: set<string>)
    ensures |Unregistered(classes, known)| == |set i | 0 <= i < |classes| && Unserved(classes[i], known)|
    decreases |classes|
  {
    if |classes| > 0 {
      var n := |classes| - 1;
      var init := classes[..n];
      UnregisteredCount(init, known);
      var all := set i | 0 <= i < |classes| && Unserved(classes[i], known);
      var before := set i | 0 <= i < |init| && Unserved(init[i], known);
      assert forall i :: 0 <= i < n ==> init[i] == classes[i];
      if Unserved(classes[n], known) {
        assert all == before + {n};
      } else {
        assert all == before;
      }
    }
  }

  // ---- process ----

  /** The files written in a round and the diagnostics printed. */
  datatype Round = Round(adapters: seq<Kt.Output>, factories: seq<FactoryGenerator.FactoryFile>, diagnostics: seq<Diagnostic>)

  function RoundOf(processingOver: bool, es: seq<TypeElement>, fes: seq<FactoryElement>): Round
    requires forall i :: 0 <= i < |fes| ==> WellTyped(fes[i])
  {
    if processingOver then Round([], [], [])
    else
      var d := DataClassesOf(es);
      if d.error.Some? then Round(d.adapters, [], [ErrorMessage(ErrorText(d.error.value))])
      else
        var f := ProcessFactoryOf(fes, d.classes);
        Round(d.adapters, f.factories,
              f.warnings + (if f.error.Some? then [ErrorMessage(ErrorText(f.error.value))] else []))
  }

  /** process: data classes first, then factories; an exception from either becomes one ERROR. */
  method Process(processingOver: bool, es: seq<TypeElement>, fes: seq<FactoryElement>) returns (r: Round)
    requires forall i :: 0 <= i < |fes| ==> WellTyped(fes[i])
    ensures r == RoundOf(processingOver, es, fes)
  {
    if processingOver {
      return Round([], [], []);
    }
    var d := ProcessDataClasses(es);
    if d.error.Some? {
      return Round(d.adapters, [], [ErrorMessage(ErrorText(d.error.value))]);
    }
    var f := ProcessFactory(fes, d.classes);
    var diagnostics := f.warnings;
    if f.error.Some? {
      diagnostics := diagnostics + [ErrorMessage(ErrorText(f.error.value))];
    }
    r := Round(d.adapters, f.factories, diagnostics);
  }

  /**
    A rejected @GenerateMoshi element ends the round: the adapters of the elements before it
    stay written, no factory is written, and the one diagnostic is the ERROR with its message.
  */
  lemma {:induction false} RoundStopsAtRejection(es: seq<TypeElement>, fes: seq<FactoryElement>, k: nat)
    requires forall i :: 0 <= i < |fes| ==> WellTyped(fes[i])
    requires k < |es| && !Accepted(es[k])
    requires forall i :: 0 <= i < k ==> Accepted(es[i])
    ensures RoundOf(false, es, fes).factories == []
    ensures RoundOf(false, es, fes).diagnostics == [ErrorMessage(ErrorText(Rejection(Kt.GenerateOf, es[k])))]
    ensures |RoundOf(false, es, fes).adapters| == k
    ensures forall i :: 0 <= i < k ==> Kt.GenerateOf(es[i]) == Success(RoundOf(false, es, fes).adapters[i])
  {
    DataClassesFirstRejection(es, k);
  }

  /** The compiler gives distinct classes distinct qualified names. */
  predicate DistinctQualifiedNames(classes: seq<TypeElement>) {
    forall i, j :: 0 <= i < |classes| && 0 <= j < |classes| && classes[i].qualifiedName == classes[j].qualifiedName ==> i == j
  }

  /**
    When every factory element lists its classes, processFactory warns that a class is
    unregistered exactly when no factory lists its qualified name and it does not generate
    its own factory.
  */
  lemma {:induction false} FactoryWarnsUnregistered(fes: seq<FactoryElement>, classes: seq<TypeElement>, e: TypeElement)
    requires forall i :: 0 <= i < |fes| ==> WellTyped(fes[i])
    requires AllListed(fes) && e in classes && DistinctQualifiedNames(classes)
    ensures WarningMessage(UnregisteredMessage(e.qualifiedName)) in ProcessFactoryOf(fes, classes).warnings <==>
      (!e.options.generateFactory && forall i :: 0 <= i < |fes| ==> e.qualifiedName !in InitOf(fes[i]).classes.value)
  {
    ProcessFactoryListed(fes, classes);
    var run := FactoriesFrom(FactoryRun({}, 0, [], [], None), fes);
    UnregisteredExactly(classes, run.known);
    RegisterWarningsAreDuplicates(fes);
    var w := WarningMessage(UnregisteredMessage(e.qualifiedName));
    assert ProcessFactoryOf(fes, classes).warnings == run.warnings + Unregistered(classes, run.known);
    if w in run.warnings {
      var c :| w == WarningMessage(DuplicateMessage(c));
      UnregisteredNotDuplicate(e.qualifiedName, c);
    }
    if w in Unregistered(classes, run.known) {
      var i :| 0 <= i < |classes| && Unserved(classes[i], run.known)
        && w == WarningMessage(UnregisteredMessage(classes[i].qualifiedName));
      UnregisteredMessageInjective(e.qualifiedName, classes[i].qualifiedName);
      var j :| 0 <= j < |classes| && classes[j] == e;
      assert i == j;
    }
    if !e.options.generateFactory && forall i :: 0 <= i < |fes| ==> e.qualifiedName !in InitOf(fes[i]).classes.value {
      var i :| 0 <= i < |classes| && classes[i] == e;
      assert w in Unregistered(classes, run.known);
    }
  }

  /** The class a warning names can be read back from it. */
  lemma {:induction false} UnregisteredMessageInjective(a: string, b: string)
    requires UnregisteredMessage(a) == UnregisteredMessage(b)
    ensures a == b
  {
    var u := UnregisteredMessage(a);
    var tail := "' is not registered in any factory";
    assert u == "Class '" + a + tail;
    assert UnregisteredMessage(b) == "Class '" + b + tail;
    assert a == u[7..|u| - |tail|];
    assert b == u[7..|u| - |tail|];
  }

  /**
    In a round without errors, a @GenerateMoshi class is warned about as unregistered exactly
    when no factory lists its qualified name and it does not generate its own factory.
  */
  lemma {:induction false} RoundWarnsUnregistered(es: seq<TypeElement>, fes: seq<FactoryElement>, e: TypeElement)
    requires forall i :: 0 <= i < |fes| ==> WellTyped(fes[i])
    requires forall i :: 0 <= i < |es| ==> Accepted(es[i])
    requires AllListed(fes) && e in es && DistinctQualifiedNames(es)
    ensures WarningMessage(UnregisteredMessage(e.qualifiedName)) in RoundOf(false, es, fes).diagnostics <==>
      (!e.options.generateFactory && forall i :: 0 <= i < |fes| ==> e.qualifiedName !in InitOf(fes[i]).classes.value)
  {
    RoundDiagnosticsWhenAccepted(es, fes);
    FactoryWarnsUnregistered(fes, es, e);
  }

  /** With every element accepted and every factory listing its classes, the round's diagnostics are processFactory's warnings. */
  lemma {:induction false} RoundDiagnosticsWhenAccepted(es: seq<TypeElement>, fes: seq<FactoryElement>)
    requires forall i :: 0 <= i < |fes| ==> WellTyped(fes[i])
    requires forall i :: 0 <= i < |es| ==> Accepted(es[i])
    requires AllListed(fes)
    ensures RoundOf(false, es, fes).diagnostics == ProcessFactoryOf(fes, es).warnings
  {
    DataClassesAllAccepted(es);
    ProcessFactoryListed(fes, es);
  }

  /** The two warnings never carry the same text. */
  lemma {:induction false} UnregisteredNotDuplicate(a: string, b: string)
    ensures UnregisteredMessage(a) != DuplicateMessage(b)
  {
    var u := UnregisteredMessage(a);
    var m := DuplicateMessage(b);
    assert u[|u| - 1] == 'y';
    assert m[|m| - 1] == 's';
  }

  /** Before the unregistered pass, processFactory prints only duplicate warnings. */
  lemma {:induction false} RegisterWarningsAreDuplicates(fes: seq<FactoryElement>)
    requires forall i :: 0 <= i < |fes| ==> WellTyped(fes[i])
    ensures forall w :: w in FactoriesFrom(FactoryRun({}, 0, [], [], None), fes).warnings ==>
      exists c :: w == WarningMessage(DuplicateMessage(c))
  {
    FactoriesFromDuplicates(FactoryRun({}, 0, [], [], None), fes);
  }

  lemma {:induction false} FactoriesFromDuplicates(run: FactoryRun, fes: seq<FactoryElement>)
    requires forall i :: 0 <= i < |fes| ==> WellTyped(fes[i])
    requires forall w :: w in run.warnings ==> exists c :: w == WarningMessage(DuplicateMessage(c))
    ensures forall w :: w in FactoriesFrom(run, fes).warnings ==> exists c :: w == WarningMessage(DuplicateMessage(c))
    decreases |fes|
  {
    if |fes| > 0 && run.error.None? {
      var run' := FactoryStep(run, fes[0]);
      if InitOf(fes[0]).classes.Some? {
        var cs := InitOf(fes[0]).classes.value;
        RegisterWarnsOnlyRepeats(run.known, cs);
        forall w | w in run'.warnings
          ensures exists c :: w == WarningMessage(DuplicateMessage(c))
        {
          if w !in run.warnings {
            var j :| 0 <= j < |cs| && w == WarningMessage(DuplicateMessage(cs[j])) && (cs[j] in run.known || cs[j] in cs[..j]);
          }
        }
      }
      FactoriesFromDuplicates(run', fes[1..]);
    }
  }
}
