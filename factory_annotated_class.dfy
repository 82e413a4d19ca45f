/**
  MoshiFactoryAnnotatedClass.kt: what the processor reads off an element annotated with
  @GenerateMoshiFactory -- the factory's class name, the package it goes to and the classes
  it serves. The annotation's explicitly given values overwrite the defaults as they are met.
*/
module FactoryAnnotations {
  import opened Wrappers
  import opened LangModel

  const FactoryAnnotationName: string := "com.chimerapps.moshigenerator.GenerateMoshiFactory"
  const DefaultClassName: string := "MoshiFactory"

  /** An annotation value: a list of classes (by their ClassName text) or a string. */
  datatype AnnotationValue = ClassListValue(classes: seq<string>) | StringValue(text: string)

  /** One entry of AnnotationMirror.elementValues: only the values written in the source appear. */
  datatype ElementValue = ElementValue(name: string, value: AnnotationValue)

  datatype AnnotationMirror = AnnotationMirror(annotationType: string, elementValues: seq<ElementValue>)

  /** The annotated element: its enclosing chain starts with the element itself. */
  datatype FactoryElement = FactoryElement(chain: seq<Enclosing>, annotationMirrors: seq<AnnotationMirror>)

  /** The Java compiler types the annotation's members: value is a Class[], the others are strings. */
  predicate ValueTyped(v: ElementValue) {
    && (v.name == "value" ==> v.value.ClassListValue?)
    && (v.name == "targetClassName" || v.name == "targetPackage" ==> v.value.StringValue?)
  }

  predicate MirrorTyped(m: AnnotationMirror) {
    forall i :: 0 <= i < |m.elementValues| ==> ValueTyped(m.elementValues[i])
  }

  predicate WellTyped(e: FactoryElement) {
    forall i :: 0 <= i < |e.annotationMirrors| ==> MirrorTyped(e.annotationMirrors[i])
  }

  // ---- the values read by init ----

  /** className, _targetPackage and moshiClasses (None while the lateinit property is unset). */
  datatype Settings = Settings(className: string, rawPackage: string, classes: Option<seq<string>>)

  const Defaults: Settings := Settings(DefaultClassName, "", None)

  /** One step of buildAnnotationFromMirror's `when`: unrecognised names change nothing. */
  function ApplyValue(s: Settings, v: ElementValue): Settings
    requires ValueTyped(v)
  {
    if v.name == "value" then s.(classes := Some(v.value.classes))
    else if v.name == "targetClassName" then s.(className := v.value.text)
    else if v.name == "targetPackage" then s.(rawPackage := v.value.text)
    else s
  }

  function ApplyValues(s: Settings, vs: seq<ElementValue>): Settings
    requires forall i :: 0 <= i < |vs| ==> ValueTyped(vs[i])
    decreases |vs|
  {
    if |vs| == 0 then s else ApplyValue(ApplyValues(s, vs[..|vs| - 1]), vs[|vs| - 1])
  }

  /** init: every mirror of GenerateMoshiFactory is read in turn; other annotations are skipped. */
  function ApplyMirrors(s: Settings, ms: seq<AnnotationMirror>): Settings
    requires forall i :: 0 <= i < |ms| ==> MirrorTyped(ms[i])
    decreases |ms|
  {
    if |ms| == 0 then s
    else
      var before := ApplyMirrors(s, ms[..|ms| - 1]);
      var m := ms[|ms| - 1];
      assert MirrorTyped(m);
      if m.annotationType == FactoryAnnotationName then ApplyValues(before, m.elementValues) else before
  }

  function InitOf(e: FactoryElement): Settings
    requires WellTyped(e)
  {
    ApplyMirrors(Defaults, e.annotationMirrors)
  }

  /** The value of the last entry named key, if there is one: an independent statement of "the last one wins". */
  function LastValue(vs: seq<ElementValue>, key: string): Option<AnnotationValue>
    decreases |vs|
  {
    if |vs| == 0 then None
    else if vs[|vs| - 1].name == key then Some(vs[|vs| - 1].value)
    else LastValue(vs[..|vs| - 1], key)
  }

  /** Each setting is the last value given for it, or what it was before when none is given. */
  lemma {:induction false} ApplyValuesLastWins(s: Settings, vs: seq<ElementValue>)
    requires forall i :: 0 <= i < |vs| ==> ValueTyped(vs[i])
    ensures ApplyValues(s, vs).className ==
      (match LastValue(vs, "targetClassName") case Some(StringValue(t)) => t case _ => s.className)
    ensures ApplyValues(s, vs).rawPackage ==
      (match LastValue(vs, "targetPackage") case Some(StringValue(t)) => t case _ => s.rawPackage)
    ensures ApplyValues(s, vs).classes ==
      (match LastValue(vs, "value") case Some(ClassListValue(cs)) => Some(cs) case _ => s.classes)
    decreases |vs|
  {
    if |vs| > 0 {
      ApplyValuesLastWins(s, vs[..|vs| - 1]);
    }
  }

  /** The last value given for key is one of the entries named key. */
  lemma {:induction false} LastValueIsAnEntry(vs: seq<ElementValue>, key: string)
    ensures LastValue(vs, key).Some? <==> exists i :: 0 <= i < |vs| && vs[i].name == key
    ensures LastValue(vs, key).Some? ==> exists i :: 0 <= i < |vs| && vs[i] == ElementValue(key, LastValue(vs, key).value)
    decreases |vs|
  {
    if |vs| > 0 {
      var init := vs[..|vs| - 1];
      LastValueIsAnEntry(init, key);
      assert forall i :: 0 <= i < |init| ==> init[i] == vs[i];
    }
  }

  /** An annotation other than GenerateMoshiFactory does not change what init reads. */
  lemma {:induction false} ForeignMirrorIgnored(s: Settings, ms: seq<AnnotationMirror>, m: AnnotationMirror)
    requires forall i :: 0 <= i < |ms| ==> MirrorTyped(ms[i])
    requires MirrorTyped(m) && m.annotationType != FactoryAnnotationName
    ensures ApplyMirrors(s, ms + [m]) == ApplyMirrors(s, ms)
  {
    assert (ms + [m])[..|ms|] == ms;
  }

  /** An element value with a name the `when` does not know changes nothing. */
  lemma {:induction false} UnknownValueIgnored(s: Settings, vs: seq<ElementValue>, v: ElementValue)
    requires forall i :: 0 <= i < |vs| ==> ValueTyped(vs[i])
    requires v.name != "value" && v.name != "targetClassName" && v.name != "targetPackage"
    ensures ApplyValues(s, vs + [v]) == ApplyValues(s, vs)
  {
    assert (vs + [v])[..|vs|] == vs;
  }

  /**
    The usual case, one @GenerateMoshiFactory with distinct member names: the class name is
    targetClassName when given and "MoshiFactory" otherwise; the raw package is targetPackage
    when given and "" otherwise; the classes are the value list when given.
  */
  lemma {:induction false} SingleAnnotation(e: FactoryElement)
    requires WellTyped(e) && |e.annotationMirrors| == 1
    requires e.annotationMirrors[0].annotationType == FactoryAnnotationName
    ensures var vs := e.annotationMirrors[0].elementValues;
      && InitOf(e).className == (match LastValue(vs, "targetClassName") case Some(StringValue(t)) => t case _ => DefaultClassName)
      && InitOf(e).rawPackage == (match LastValue(vs, "targetPackage") case Some(StringValue(t)) => t case _ => "")
      && InitOf(e).classes == (match LastValue(vs, "value") case Some(ClassListValue(cs)) => Some(cs) case _ => None)
  {
    var ms := e.annotationMirrors;
    assert ms[..0] == [];
    assert ApplyMirrors(Defaults, ms[..0]) == Defaults;
    assert MirrorTyped(ms[0]);
    assert InitOf(e) == ApplyValues(Defaults, ms[0].elementValues);
    ApplyValuesLastWins(Defaults, ms[0].elementValues);
  }

  // ---- targetPackage ----

  /** Kotlin's Char.isWhitespace on the JVM: Java whitespace or a Unicode space separator. */
  predicate IsWhitespace(c: char) {
    || c == ' ' || c == '\t' || c == '\n' || c == '\r' || c == '\U{000B}' || c == '\U{000C}'
    || ('\U{001C}' <= c <= '\U{001F}')
    || c == '\U{00A0}' || c == '\U{1680}' || ('\U{2000}' <= c <= '\U{200A}')
    || c == '\U{2028}' || c == '\U{2029}' || c == '\U{202F}' || c == '\U{205F}' || c == '\U{3000}'
  }

  /** isBlank: every character is whitespace (the empty string included). */
  predicate IsBlank(s: string) {
    forall i :: 0 <= i < |s| ==> IsWhitespace(s[i])
  }

  function TrimStart(s: string): string
    decreases |s|
  {
    if |s| > 0 && IsWhitespace(s[0]) then TrimStart(s[1..]) else s
  }

  function TrimEnd(s: string): string
    decreases |s|
  {
    if |s| > 0 && IsWhitespace(s[|s| - 1]) then TrimEnd(s[..|s| - 1]) else s
  }

  /** String.trim(): whitespace removed from both ends. */
  function Trim(s: string): string {
    TrimEnd(TrimStart(s))
  }

  /** Every character of s from lo up to hi is whitespace. */
  predicate BlankBetween(s: string, lo: int, hi: int)
    requires 0 <= lo <= hi <= |s|
  {
    forall k :: lo <= k < hi ==> IsWhitespace(s[k])
  }

  /** TrimStart(s) is s[i..]: only whitespace before i, and none at i. */
  predicate StartTrimmedAt(s: string, i: int) {
    0 <= i <= |s| && TrimStart(s) == s[i..] && BlankBetween(s, 0, i) && (i < |s| ==> !IsWhitespace(s[i]))
  }

  /** TrimEnd(s) is s[..j]: only whitespace from j on, and none just before j. */
  predicate EndTrimmedAt(s: string, j: int) {
    0 <= j <= |s| && TrimEnd(s) == s[..j] && BlankBetween(s, j, |s|) && (j > 0 ==> !IsWhitespace(s[j - 1]))
  }

  lemma {:induction false} TrimStartShape(s: string)
    ensures exists i :: StartTrimmedAt(s, i)
    decreases |s|
  {
    if |s| > 0 && IsWhitespace(s[0]) {
      var t := s[1..];
      TrimStartShape(t);
      var i :| StartTrimmedAt(t, i);
      assert t[i..] == s[i + 1..];
      assert forall k :: 1 <= k < i + 1 ==> s[k] == t[k - 1];
      assert BlankBetween(s, 0, i + 1);
      assert StartTrimmedAt(s, i + 1);
    } else {
      assert s[0..] == s;
      assert BlankBetween(s, 0, 0);
      assert StartTrimmedAt(s, 0);
    }
  }

  lemma {:induction false} TrimEndShape(s: string)
    ensures exists j :: EndTrimmedAt(s, j)
    decreases |s|
  {
    if |s| > 0 && IsWhitespace(s[|s| - 1]) {
      var init := s[..|s| - 1];
      TrimEndShape(init);
      var j :| EndTrimmedAt(init, j);
      assert init[..j] == s[..j];
      assert forall k :: j <= k < |s| - 1 ==> s[k] == init[k];
      assert BlankBetween(s, j, |s|);
      assert EndTrimmedAt(s, j);
    } else {
      assert s[..|s|] == s;
      assert BlankBetween(s, |s|, |s|);
      assert EndTrimmedAt(s, |s|);
    }
  }

  /** Trim(s) is s[i..j], with only whitespace outside it and none at its ends. */
  predicate TrimmedAt(s: string, i: int, j: int) {
    && 0 <= i <= j <= |s| && Trim(s) == s[i..j] && BlankBetween(s, 0, i) && BlankBetween(s, j, |s|)
    && (i < j ==> !IsWhitespace(s[i]) && !IsWhitespace(s[j - 1]))
  }

  /**
    trim keeps one contiguous piece of the string: everything before and after it is
    whitespace, and when it is not empty it neither starts nor ends with whitespace.
  */
  lemma {:induction false} TrimShape(s: string)
    ensures exists i, j :: TrimmedAt(s, i, j)
  {
    TrimStartShape(s);
    var i :| StartTrimmedAt(s, i);
    var t := s[i..];
    TrimEndShape(t);
    var j :| EndTrimmedAt(t, j);
    assert t[..j] == s[i..i + j];
    assert forall k :: i + j <= k < |s| ==> s[k] == t[k - i];
    assert BlankBetween(s, i + j, |s|);
    if 0 < j {
      assert s[i] == t[0];
      assert s[i + j - 1] == t[j - 1];
    }
    var e := i + j;
    assert Trim(s) == TrimEnd(t) == s[i..e];
    assert TrimmedAt(s, i, e);
  }

  /** A string is blank exactly when trimming leaves nothing. */
  lemma {:induction false} BlankIffTrimEmpty(s: string)
    ensures IsBlank(s) <==> Trim(s) == ""
  {
    TrimShape(s);
    var i, j :| TrimmedAt(s, i, j);
    if Trim(s) == "" {
      assert i == j;
      forall k | 0 <= k < |s|
        ensures IsWhitespace(s[k])
      {
        if k < i {
          assert BlankBetween(s, 0, i);
        } else {
          assert BlankBetween(s, j, |s|);
        }
      }
    }
  }

  /** Trimming twice is trimming once. */
  lemma {:induction false} TrimIdempotent(s: string)
    ensures Trim(Trim(s)) == Trim(s)
  {
    var t := Trim(s);
    TrimShape(s);
    var i, j :| TrimmedAt(s, i, j);
    if |t| > 0 {
      assert t[0] == s[i] && t[|t| - 1] == s[j - 1];
      assert TrimStart(t) == t;
      assert TrimEnd(t) == t;
    }
  }

  /** findPackageOfElement: the element itself, then its enclosing elements, until a package; "" past the end. */
  function FindPackageOfElement(chain: seq<Enclosing>): string
    decreases |chain|
  {
    if |chain| == 0 then ""
    else if chain[0].kind == PackageKind then chain[0].qualifiedName
    else FindPackageOfElement(chain[1..])
  }

  /** findPackageOfElement never fails: it is the nearest package, or "" when the chain has none. */
  lemma {:induction false} FindPackageIsNearest(chain: seq<Enclosing>)
    ensures FindPackageOfElement(chain) == (match NearestPackage(chain) case Some(p) => p case None => "")
    decreases |chain|
  {
    if |chain| > 0 && chain[0].kind != PackageKind {
      FindPackageIsNearest(chain[1..]);
    }
  }

  /** makePackage: a blank value means the element's own package; anything else is trimmed. */
  function MakePackage(raw: string, e: FactoryElement): string {
    if IsBlank(raw) then FindPackageOfElement(e.chain) else Trim(raw)
  }

  /**
    The package a factory goes to: the trimmed targetPackage, never empty and without
    surrounding whitespace, when one with content is given; otherwise the element's nearest
    package, or "" when it has none.
  */
  lemma {:induction false} TargetPackageRule(raw: string, e: FactoryElement)
    ensures !IsBlank(raw) ==> (MakePackage(raw, e) == Trim(raw) && MakePackage(raw, e) != ""
      && !IsWhitespace(MakePackage(raw, e)[0]) && !IsWhitespace(MakePackage(raw, e)[|MakePackage(raw, e)| - 1]))
    ensures IsBlank(raw) ==> MakePackage(raw, e) == (match NearestPackage(e.chain) case Some(p) => p case None => "")
  {
    FindPackageIsNearest(e.chain);
    BlankIffTrimEmpty(raw);
    TrimShape(raw);
  }

  // ---- the class ----

  class MoshiFactoryAnnotatedClass {
    const element: FactoryElement
    var className: string
    /** `_targetPackage` */
    var rawTargetPackage: string
    /** the lateinit `moshiClasses`; None until a value list is read */
    var moshiClasses: Option<seq<string>>

    function Current(): Settings
      reads this
    {
      Settings(className, rawTargetPackage, moshiClasses)
    }

    /** init: the defaults, then every GenerateMoshiFactory mirror in turn. */
    constructor (element: FactoryElement)
      requires WellTyped(element)
      ensures this.element == element
      ensures Current() == InitOf(element)
    {
      this.element := element;
      className := DefaultClassName;
      rawTargetPackage := "";
      moshiClasses := None;
      new;
      var ms := element.annotationMirrors;
      for i := 0 to |ms|
        invariant Current() == ApplyMirrors(Defaults, ms[..i])
      {
        assert ms[..i + 1][..i] == ms[..i];
        if ms[i].annotationType == FactoryAnnotationName {
          BuildAnnotationFromMirror(ms[i]);
        }
      }
      assert ms[..|ms|] == ms;
    }

    /** buildAnnotationFromMirror: each element value sets the property its name selects. */
    method BuildAnnotationFromMirror(m: AnnotationMirror)
      requires MirrorTyped(m)
      modifies this
      ensures Current() == ApplyValues(old(Current()), m.elementValues)
    {
      var vs := m.elementValues;
      ghost var start := Current();
      for i := 0 to |vs|
        invariant Current() == ApplyValues(start, vs[..i])
      {
        assert vs[..i + 1][..i] == vs[..i];
        var v := vs[i];
        if v.name == "value" {
          moshiClasses := Some(v.value.classes);
        } else if v.name == "targetClassName" {
          className := v.value.text;
        } else if v.name == "targetPackage" {
          rawTargetPackage := v.value.text;
        }
      }
      assert vs[..|vs|] == vs;
    }

    /** targetPackage, the lazy property: makePackage of the raw value. */
    function TargetPackage(): string
      reads this
    {
      MakePackage(rawTargetPackage, element)
    }

    /** Reading moshiClasses: the list, or the lateinit error when no value list was given. */
    method MoshiClasses() returns (r: Result<seq<string>, GenError>)
      ensures moshiClasses.Some? ==> r == Success(moshiClasses.value)
      ensures moshiClasses.None? ==> r == Failure(Uninitialized("moshiClasses"))
    {
      if moshiClasses.Some? {
        r := Success(moshiClasses.value);
      } else {
        r := Failure(Uninitialized("moshiClasses"));
      }
    }
  }
}
