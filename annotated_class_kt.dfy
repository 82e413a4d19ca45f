/**
  MoshiAnnotatedClass.kt: what the Kotlin revision of the processor extracts from a class
  annotated with @GenerateMoshi -- validity, package, the reader fields (the parameters of
  the single constructor), the writer fields (collected up the superclass chain) and the
  getter and visible-field queries the writer uses.
*/
module AnnotatedClassKt {
  import opened Wrappers
  import opened LangModel

  const ObjectName: string := "java.lang.Object"

  /** checkValid: None when the class may be generated, else the AnnotationError it throws. */
  function CheckValid(e: TypeElement): (r: Option<GenError>)
    ensures r.None? <==> Public in e.modifiers && Abstract !in e.modifiers
    ensures Public !in e.modifiers ==> r == Some(AnnotationError("Class " + e.qualifiedName + " is not public"))
    ensures Public in e.modifiers && Abstract in e.modifiers ==>
      r == Some(AnnotationError("Class " + e.qualifiedName + " is abstract"))
  {
    if Public !in e.modifiers then Some(AnnotationError("Class " + e.qualifiedName + " is not public"))
    else if Abstract in e.modifiers then Some(AnnotationError("Class " + e.qualifiedName + " is abstract"))
    else None
  }

  // ---- packageName ----

  function PackageNameOf(e: TypeElement): Result<string, GenError> {
    match NearestPackage(e.enclosing)
    case Some(p) => Success(p)
    case None => Failure(AnnotationError("Failed to find package of " + e.qualifiedName))
  }

  /** The package getter: walk the enclosing elements until a PACKAGE is met. */
  method PackageName(e: TypeElement) returns (r: Result<string, GenError>)
    ensures r == PackageNameOf(e)
  {
    var i := 0;
    while i < |e.enclosing|
      invariant 0 <= i <= |e.enclosing|
      invariant forall j :: 0 <= j < i ==> e.enclosing[j].kind != PackageKind
    {
      if e.enclosing[i].kind == PackageKind {
        return Success(e.enclosing[i].qualifiedName);
      }
      i := i + 1;
    }
    return Failure(AnnotationError("Failed to find package of " + e.qualifiedName));
  }

  // ---- fields: the single-constructor rule ----

  /** isParcelConstructor: exactly one parameter, assignable to android.os.Parcel. */
  predicate IsParcelConstructor(params: seq<VarElement>) {
    |params| == 1 && params[0].assignableToParcel
  }

  /** A constructor the rule counts: every constructor, except a Parcel constructor of a Parcelable class. */
  predicate IsCandidate(isParcelable: bool, m: Member) {
    m.ConstructorMember? && !(isParcelable && IsParcelConstructor(m.params))
  }

  /** The parameter lists of the counted constructors, in declaration order. */
  function Candidates(isParcelable: bool, ms: seq<Member>): seq<seq<VarElement>>
    decreases |ms|
  {
    if |ms| == 0 then []
    else
      Candidates(isParcelable, ms[..|ms| - 1])
        + (if IsCandidate(isParcelable, ms[|ms| - 1]) then [ms[|ms| - 1].params] else [])
  }

  /** ms[j] is a counted constructor and no other member is one. */
  predicate OnlyCandidate(p: bool, ms: seq<Member>, j: int) {
    && 0 <= j < |ms|
    && IsCandidate(p, ms[j])
    && (forall k :: 0 <= k < |ms| && k != j ==> !IsCandidate(p, ms[k]))
  }

  /** Two distinct members are counted constructors. */
  predicate TwoCandidates(p: bool, ms: seq<Member>) {
    exists j, k :: 0 <= j < k < |ms| && IsCandidate(p, ms[j]) && IsCandidate(p, ms[k])
  }

  /** How the counted constructors relate to the members that declare them. */
  lemma {:induction false} CandidatesShape(p: bool, ms: seq<Member>)
    ensures |Candidates(p, ms)| == 0 <==> forall j :: 0 <= j < |ms| ==> !IsCandidate(p, ms[j])
    ensures |Candidates(p, ms)| >= 2 <==> TwoCandidates(p, ms)
    ensures |Candidates(p, ms)| == 1 ==>
      exists j :: OnlyCandidate(p, ms, j) && Candidates(p, ms)[0] == ms[j].params
    decreases |ms|
  {
    if |ms| > 0 {
      var n := |ms| - 1;
      var init := ms[..n];
      CandidatesShape(p, init);
      assert forall j :: 0 <= j < n ==> init[j] == ms[j];
      if |Candidates(p, init)| >= 2 {
        var j, k :| 0 <= j < k < n && IsCandidate(p, init[j]) && IsCandidate(p, init[k]);
        assert IsCandidate(p, ms[j]) && IsCandidate(p, ms[k]);
      } else if |Candidates(p, init)| == 1 {
        var j :| OnlyCandidate(p, init, j) && Candidates(p, init)[0] == init[j].params;
        if IsCandidate(p, ms[n]) {
          assert IsCandidate(p, ms[j]);
        } else {
          assert OnlyCandidate(p, ms, j);
        }
      } else {
        assert forall k :: 0 <= k < n ==> !IsCandidate(p, ms[k]);
        if IsCandidate(p, ms[n]) {
          assert OnlyCandidate(p, ms, n);
        }
      }
    }
  }

  /** A constructor that is the only counted one is the one the rule picks. */
  lemma {:induction false} OnlyCandidatePicked(p: bool, ms: seq<Member>, j: int)
    requires OnlyCandidate(p, ms, j)
    ensures Candidates(p, ms) == [ms[j].params]
  {
    CandidatesShape(p, ms);
    if |Candidates(p, ms)| == 1 {
      var j0 :| OnlyCandidate(p, ms, j0) && Candidates(p, ms)[0] == ms[j0].params;
      assert j0 == j;
    }
  }

  /** The counted constructors of a prefix of the members are a prefix of those of all members. */
  lemma {:induction false} CandidatesPrefix(p: bool, ms: seq<Member>, n: nat)
    requires n <= |ms|
    ensures |Candidates(p, ms[..n])| <= |Candidates(p, ms)|
    ensures Candidates(p, ms)[..|Candidates(p, ms[..n])|] == Candidates(p, ms[..n])
    decreases |ms| - n
  {
    if n == |ms| {
      assert ms[..n] == ms;
    } else {
      CandidatesPrefix(p, ms, n + 1);
      assert ms[..n + 1][..n] == ms[..n];
    }
  }

  /** The fields getter, as a value: the parameters of the only counted constructor, or the error. */
  function FieldsOf(e: TypeElement): (r: Result<seq<VarElement>, GenError>)
    ensures r.Success? ==> |r.value| > 0
  {
    var cs := Candidates(e.isParcelable, e.members);
    if |cs| >= 2 then Failure(AnnotationError("Class " + e.qualifiedName + " must have only 1 constructor"))
    else if |cs| == 0 then Failure(AnnotationError("Class " + e.qualifiedName + " must have a constructor"))
    else if |cs[0]| == 0 then Failure(AnnotationError("Class " + e.qualifiedName + " must have a non-empty constructor"))
    else Success(cs[0])
  }

  /** The single-constructor rule, stated over the members of the class. */
  lemma {:induction false} SingleConstructorRule(e: TypeElement)
    ensures forall j :: OnlyCandidate(e.isParcelable, e.members, j) ==>
      FieldsOf(e) == (if |e.members[j].params| == 0
                      then Failure(AnnotationError("Class " + e.qualifiedName + " must have a non-empty constructor"))
                      else Success(e.members[j].params))
    ensures TwoCandidates(e.isParcelable, e.members) <==>
      FieldsOf(e) == Failure(AnnotationError("Class " + e.qualifiedName + " must have only 1 constructor"))
    ensures (forall j :: 0 <= j < |e.members| ==> !IsCandidate(e.isParcelable, e.members[j])) <==>
      FieldsOf(e) == Failure(AnnotationError("Class " + e.qualifiedName + " must have a constructor"))
    ensures FieldsOf(e).Success? <==>
      exists j :: OnlyCandidate(e.isParcelable, e.members, j) && |e.members[j].params| > 0
  {
    var p, ms := e.isParcelable, e.members;
    CandidatesShape(p, ms);
    var cs := Candidates(p, ms);
    var q := "Class " + e.qualifiedName;
    assert |q + " must have only 1 constructor"| != |q + " must have a constructor"|;
    assert |q + " must have only 1 constructor"| != |q + " must have a non-empty constructor"|;
    assert |q + " must have a constructor"| != |q + " must have a non-empty constructor"|;
    if |cs| == 1 {
      var j0 :| OnlyCandidate(p, ms, j0) && cs[0] == ms[j0].params;
      assert forall j :: OnlyCandidate(p, ms, j) ==> j == j0;
      assert !TwoCandidates(p, ms);
    }
  }

  /** The fields getter: one pass over the enclosed elements, failing at the second counted constructor. */
  method Fields(e: TypeElement) returns (r: Result<seq<VarElement>, GenError>)
    ensures r == FieldsOf(e)
  {
    var ms := e.members;
    var p := e.isParcelable;
    var ctor: Option<seq<VarElement>> := None;
    var i := 0;
    while i < |ms|
      invariant 0 <= i <= |ms|
      invariant |Candidates(p, ms[..i])| <= 1
      invariant ctor == if |Candidates(p, ms[..i])| == 0 then None else Some(Candidates(p, ms[..i])[0])
    {
      assert ms[..i + 1][..i] == ms[..i];
      if ms[i].ConstructorMember? && !(p && IsParcelConstructor(ms[i].params)) {
        if ctor.Some? {
          CandidatesPrefix(p, ms, i + 1);
          assert ms == ms[..|ms|];
          return Failure(AnnotationError("Class " + e.qualifiedName + " must have only 1 constructor"));
        }
        ctor := Some(ms[i].params);
      }
      i := i + 1;
    }
    assert ms[..i] == ms;
    if ctor.None? {
      return Failure(AnnotationError("Class " + e.qualifiedName + " must have a constructor"));
    }
    if |ctor.value| == 0 {
      return Failure(AnnotationError("Class " + e.qualifiedName + " must have a non-empty constructor"));
    }
    return Success(ctor.value);
  }

  // ---- the superclass walk shared by writerFields and hasGetter ----

  /** How many levels the walks visit: they stop at java.lang.Object or at a non-declared type. */
  function WalkLength(ls: seq<ClassLevel>): (n: nat)
    ensures n <= |ls|
    ensures forall i :: 0 <= i < n ==> ls[i].declared && ls[i].qualifiedName != ObjectName
    ensures n < |ls| ==> !ls[n].declared || ls[n].qualifiedName == ObjectName
    decreases |ls|
  {
    if |ls| == 0 || !ls[0].declared || ls[0].qualifiedName == ObjectName then 0
    else
      var n := WalkLength(ls[1..]);
      assert forall i :: 1 <= i < n + 1 ==> ls[i] == ls[1..][i - 1];
      1 + n
  }

  /** The levels the walks visit, the class itself first. */
  function Walked(e: TypeElement): seq<ClassLevel> {
    Levels(e)[..WalkLength(Levels(e))]
  }

  /** A public method with that name, no parameters and that return type. */
  predicate IsGetter(m: Member, name: string, t: TypeName) {
    m.MethodMember? && m.name == name && m.paramCount == 0 && m.returnType == t && Public in m.modifiers
  }

  predicate DeclaresGetter(l: ClassLevel, name: string, t: TypeName) {
    exists j :: 0 <= j < |l.members| && IsGetter(l.members[j], name, t)
  }

  /** hasGetter, as a value: some walked level declares such a getter. */
  predicate HasGetterSpec(e: TypeElement, name: string, t: TypeName) {
    exists i :: 0 <= i < |Walked(e)| && DeclaresGetter(Walked(e)[i], name, t)
  }

  /** hasGetter: walk the class and its superclasses below java.lang.Object, looking for the getter. */
  method HasGetter(e: TypeElement, name: string, t: TypeName) returns (b: bool)
    ensures b == HasGetterSpec(e, name, t)
  {
    var ls := Levels(e);
    var n := WalkLength(ls);
    var i := 0;
    while i < |ls| && ls[i].declared && ls[i].qualifiedName != ObjectName
      invariant 0 <= i <= n
      invariant forall k :: 0 <= k < i ==> !DeclaresGetter(ls[k], name, t)
    {
      if exists j :: 0 <= j < |ls[i].members| && IsGetter(ls[i].members[j], name, t) {
        assert Walked(e)[i] == ls[i];
        return true;
      }
      i := i + 1;
    }
    assert i == n;
    assert forall k :: 0 <= k < |Walked(e)| ==> Walked(e)[k] == ls[k];
    return false;
  }

  // ---- writerFields ----

  /** A field the writer serialises: not transient, not static, and public or readable through a getter. */
  predicate IsWriterField(e: TypeElement, v: VarElement) {
    && Transient !in v.modifiers
    && Static !in v.modifiers
    && (|| Public in v.modifiers
        || HasGetterSpec(e, "get" + Capitalize(v.name), v.typ)
        || HasGetterSpec(e, "is" + Capitalize(v.name), v.typ)
        || HasGetterSpec(e, v.name, v.typ))
  }

  /** The writer fields among the members of one level, in declaration order. */
  function LevelWriterFields(e: TypeElement, ms: seq<Member>): seq<VarElement>
    decreases |ms|
  {
    if |ms| == 0 then []
    else
      var last := ms[|ms| - 1];
      LevelWriterFields(e, ms[..|ms| - 1])
        + (if last.FieldMember? && IsWriterField(e, last.field) then [last.field] else [])
  }

  lemma {:induction false} LevelWriterFieldsMembership(e: TypeElement, ms: seq<Member>, v: VarElement)
    ensures v in LevelWriterFields(e, ms) <==> FieldMember(v) in ms && IsWriterField(e, v)
    decreases |ms|
  {
    if |ms| > 0 {
      var init := ms[..|ms| - 1];
      assert ms == init + [ms[|ms| - 1]];
      LevelWriterFieldsMembership(e, init, v);
    }
  }

  /** The writer fields of several levels, level after level. */
  function WriterFieldsFrom(e: TypeElement, ls: seq<ClassLevel>): seq<VarElement>
    decreases |ls|
  {
    if |ls| == 0 then []
    else WriterFieldsFrom(e, ls[..|ls| - 1]) + LevelWriterFields(e, ls[|ls| - 1].members)
  }

  lemma {:induction false} WriterFieldsFromMembership(e: TypeElement, ls: seq<ClassLevel>, v: VarElement)
    ensures v in WriterFieldsFrom(e, ls) <==>
      (exists i :: 0 <= i < |ls| && FieldMember(v) in ls[i].members) && IsWriterField(e, v)
    decreases |ls|
  {
    if |ls| > 0 {
      var n := |ls| - 1;
      var init := ls[..n];
      assert forall i :: 0 <= i < n ==> init[i] == ls[i];
      WriterFieldsFromMembership(e, init, v);
      LevelWriterFieldsMembership(e, ls[n].members, v);
    }
  }

  /** The writerFields getter, as a value. */
  function WriterFieldsOf(e: TypeElement): seq<VarElement> {
    WriterFieldsFrom(e, Walked(e))
  }

  /** A field is written iff a walked level declares it and it qualifies. */
  lemma {:induction false} WriterFieldsMembership(e: TypeElement, v: VarElement)
    ensures v in WriterFieldsOf(e) <==>
      (exists i :: 0 <= i < |Walked(e)| && FieldMember(v) in Walked(e)[i].members)
        && Transient !in v.modifiers && Static !in v.modifiers
        && (|| Public in v.modifiers
            || HasGetterSpec(e, "get" + Capitalize(v.name), v.typ)
            || HasGetterSpec(e, "is" + Capitalize(v.name), v.typ)
            || HasGetterSpec(e, v.name, v.typ))
  {
    WriterFieldsFromMembership(e, Walked(e), v);
  }

  lemma {:induction false} WriterFieldsFromCons(e: TypeElement, l: ClassLevel, ls: seq<ClassLevel>)
    ensures WriterFieldsFrom(e, [l] + ls) == LevelWriterFields(e, l.members) + WriterFieldsFrom(e, ls)
    decreases |ls|
  {
    if |ls| == 0 {
      assert ([l] + ls)[..0] == [];
    } else {
      var init := ls[..|ls| - 1];
      assert ([l] + ls)[..|[l] + ls| - 1] == [l] + init;
      WriterFieldsFromCons(e, l, init);
    }
  }

  /** The fields of the class come first, then those of its superclasses, each in declaration order. */
  lemma {:induction false} SubclassFieldsFirst(e: TypeElement)
    requires |Walked(e)| > 0
    ensures WriterFieldsOf(e) == LevelWriterFields(e, e.members) + WriterFieldsFrom(e, Walked(e)[1..])
  {
    var w := Walked(e);
    assert w == [w[0]] + w[1..];
    WriterFieldsFromCons(e, w[0], w[1..]);
  }

  /** The class itself is always walked, unless it is java.lang.Object. */
  lemma {:induction false} OwnLevelWalked(e: TypeElement)
    requires e.qualifiedName != ObjectName
    ensures |Walked(e)| > 0 && Walked(e)[0].members == e.members
  {
  }

  /** The inner loop of writerFields: one level's fields, with the getter lookups in source order. */
  method LevelFields(e: TypeElement, ms: seq<Member>) returns (fs: seq<VarElement>)
    ensures fs == LevelWriterFields(e, ms)
  {
    fs := [];
    for j := 0 to |ms|
      invariant fs == LevelWriterFields(e, ms[..j])
    {
      assert ms[..j + 1][..j] == ms[..j];
      if ms[j].FieldMember? {
        var v := ms[j].field;
        if Transient !in v.modifiers && Static !in v.modifiers {
          var keep := Public in v.modifiers;
          if !keep {
            keep := HasGetter(e, "get" + Capitalize(v.name), v.typ);
          }
          if !keep {
            keep := HasGetter(e, "is" + Capitalize(v.name), v.typ);
          }
          if !keep {
            keep := HasGetter(e, v.name, v.typ);
          }
          if keep {
            fs := fs + [v];
          }
        }
      }
    }
    assert ms[..|ms|] == ms;
  }

  /** writerFields: walk the superclass chain, appending each level's qualifying fields. */
  method WriterFields(e: TypeElement) returns (fs: seq<VarElement>)
    ensures fs == WriterFieldsOf(e)
  {
    var ls := Levels(e);
    var n := WalkLength(ls);
    fs := [];
    var i := 0;
    while i < |ls| && ls[i].declared && ls[i].qualifiedName != ObjectName
      invariant 0 <= i <= n
      invariant fs == WriterFieldsFrom(e, ls[..i])
    {
      var level := LevelFields(e, ls[i].members);
      fs := fs + level;
      assert ls[..i + 1][..i] == ls[..i];
      i := i + 1;
    }
    assert i == n;
  }

  // ---- hasVisibleField / getFieldByName ----

  /** getFieldByName: the first field of the class itself with that name (superclasses are not searched). */
  function GetFieldByName(ms: seq<Member>, name: string): (r: Option<VarElement>)
    ensures r.None? <==> forall j :: 0 <= j < |ms| ==> !(ms[j].FieldMember? && ms[j].field.name == name)
    ensures r.Some? ==>
      exists j :: 0 <= j < |ms| && ms[j] == FieldMember(r.value) && r.value.name == name
        && forall k :: 0 <= k < j ==> !(ms[k].FieldMember? && ms[k].field.name == name)
    decreases |ms|
  {
    if |ms| == 0 then None
    else if ms[0].FieldMember? && ms[0].field.name == name then Some(ms[0].field)
    else
      var r := GetFieldByName(ms[1..], name);
      assert forall j :: 1 <= j < |ms| ==> ms[j] == ms[1..][j - 1];
      r
  }

  /** hasVisibleField: the class declares a field with that name, and it is not private. */
  predicate HasVisibleField(e: TypeElement, name: string) {
    var f := GetFieldByName(e.members, name);
    f.Some? && Private !in f.value.modifiers
  }
}
