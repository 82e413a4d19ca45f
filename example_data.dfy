/**
  Concrete cases from the example module (its Simple and Nested data classes): the settings
  read off a factory annotation and the duplicate warnings of processFactory. These are
  illustrations only; the general statements are TargetPackageRule, ApplyValuesLastWins and
  the ProcessorFactoryKt register lemmas.
*/
module ExampleData {
  import opened Wrappers
  import opened LangModel
  import opened FactoryAnnotations
  import ProcessorFactoryKt

  const ExamplePackage: string := "com.chimerapps.moshigenerator.example"
  const SimpleClass: string := "com.chimerapps.moshigenerator.example.Simple"
  const NestedClass: string := "com.chimerapps.moshigenerator.example.Nested"

  /**
    `@GenerateMoshiFactory(value = {Simple.class, Nested.class}, targetPackage = " com.example.json ")`
    on a class of the example package: the default name, the trimmed package, the classes in order.
  */
  lemma {:induction false} FactorySettings()
    ensures var e := FactoryElement(
              [Enclosing(ClassKind, ExamplePackage + ".Factories"), Enclosing(PackageKind, ExamplePackage)],
              [AnnotationMirror(FactoryAnnotationName,
                 [ElementValue("value", ClassListValue([SimpleClass, NestedClass])),
                  ElementValue("targetPackage", StringValue(" com.example.json "))])]);
      && WellTyped(e)
      && InitOf(e) == Settings(DefaultClassName, " com.example.json ", Some([SimpleClass, NestedClass]))
      && MakePackage(InitOf(e).rawPackage, e) == "com.example.json"
  {
    var raw := " com.example.json ";
    var vs := [ElementValue("value", ClassListValue([SimpleClass, NestedClass])),
               ElementValue("targetPackage", StringValue(raw))];
    var m := AnnotationMirror(FactoryAnnotationName, vs);
    var e := FactoryElement(
      [Enclosing(ClassKind, ExamplePackage + ".Factories"), Enclosing(PackageKind, ExamplePackage)], [m]);
    assert vs[..1] == [vs[0]] && [vs[0]][..0] == [] && [m][..0] == [];
    assert ApplyValues(Defaults, [vs[0]]) == Settings(DefaultClassName, "", Some([SimpleClass, NestedClass]));
    assert ApplyValues(Defaults, vs) == Settings(DefaultClassName, raw, Some([SimpleClass, NestedClass]));
    assert MirrorTyped(m);
    assert ApplyMirrors(Defaults, [m][..0]) == Defaults;
    assert ApplyMirrors(Defaults, [m]) == ApplyValues(Defaults, vs);
    assert InitOf(e) == ApplyValues(Defaults, vs);
    assert !IsWhitespace(raw[1]);
    var t := raw[1..];
    assert !IsWhitespace(t[0]);
    assert TrimStart(raw) == t;
    assert IsWhitespace(t[|t| - 1]) && !IsWhitespace(t[|t| - 2]);
    assert TrimEnd(t) == t[..|t| - 1];
    assert t[..|t| - 1] == "com.example.json";
  }

  /** Two factories that both list Simple, one listing it twice: two duplicate warnings, one per later listing. */
  lemma {:induction false} DuplicateRegistrations()
    ensures ProcessorFactoryKt.RegisterOf({SimpleClass}, [SimpleClass, NestedClass, SimpleClass]).warnings
         == [ProcessorFactoryKt.WarningMessage(ProcessorFactoryKt.DuplicateMessage(SimpleClass)),
             ProcessorFactoryKt.WarningMessage(ProcessorFactoryKt.DuplicateMessage(SimpleClass))]
  {
    var known := {SimpleClass};
    var cs := [SimpleClass, NestedClass, SimpleClass];
    var dup := ProcessorFactoryKt.WarningMessage(ProcessorFactoryKt.DuplicateMessage(SimpleClass));
    assert cs[..2] == [SimpleClass, NestedClass] && cs[..2][..1] == [SimpleClass] && [SimpleClass][..0] == [];
    assert ProcessorFactoryKt.RegisterOf(known, []) == ProcessorFactoryKt.Registry(known, []);
    assert ProcessorFactoryKt.RegisterOf(known, [SimpleClass]) == ProcessorFactoryKt.Registry(known, [dup]);
    assert SimpleClass != NestedClass by {
      assert SimpleClass[|SimpleClass| - 1] != NestedClass[|NestedClass| - 1];
    }
    assert ProcessorFactoryKt.RegisterOf(known, [SimpleClass, NestedClass])
        == ProcessorFactoryKt.Registry(known + {NestedClass}, [dup]);
  }
}
