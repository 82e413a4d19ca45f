/**
  MoshiAnnotatedClass.java: the Java revision of the per-class extraction. It reports
  validity through the messager instead of throwing, raises IOException, and has no
  exemption for the Parcel constructor of a Parcelable class.
*/
module AnnotatedClassJava {
  import opened Wrappers
  import opened LangModel
  import Kt = AnnotatedClassKt

  /** isValid: the verdict and the ERROR diagnostics printed on the way. */
  datatype Validity = Validity(valid: bool, errors: seq<string>)

  function IsValid(e: TypeElement): (r: Validity)
    ensures r.valid <==> Public in e.modifiers && Abstract !in e.modifiers
    ensures r.valid <==> |r.errors| == 0
    ensures |r.errors| <= 1
    ensures !r.valid && Public !in e.modifiers ==> r.errors == ["Class " + e.qualifiedName + " is not public"]
  {
    if Public !in e.modifiers then Validity(false, ["Class " + e.qualifiedName + " is not public"])
    else if Abstract in e.modifiers then Validity(false, ["Class " + e.qualifiedName + " is abstract"])
    else Validity(true, [])
  }

  /** The Java check and the Kotlin check reject the same classes with the same text. */
  lemma {:induction false} ValidityAgrees(e: TypeElement)
    ensures IsValid(e).valid <==> Kt.CheckValid(e).None?
    ensures !IsValid(e).valid ==> IsValid(e).errors == [Kt.CheckValid(e).value.message]
  {
  }

  // ---- getPackage ----

  function GetPackageOf(e: TypeElement): Result<string, GenError> {
    match NearestPackage(e.enclosing)
    case Some(p) => Success(p)
    case None => Failure(IOError("Failed to find package of " + e.qualifiedName))
  }

  /** getPackage: walk the enclosing elements until a PACKAGE is met, else IOException. */
  method GetPackage(e: TypeElement) returns (r: Result<string, GenError>)
    ensures r.Success? <==> exists i :: 0 <= i < |e.enclosing| && e.enclosing[i].kind == PackageKind
    ensures r.Success? ==>
      exists i :: 0 <= i < |e.enclosing| && e.enclosing[i].kind == PackageKind
        && r.value == e.enclosing[i].qualifiedName
        && forall j :: 0 <= j < i ==> e.enclosing[j].kind != PackageKind
    ensures r == GetPackageOf(e)
  {
    var i := 0;
    while i < |e.enclosing|
      invariant 0 <= i <= |e.enclosing|
      invariant forall j :: 0 <= j < i ==> e.enclosing[j].kind != PackageKind
    {
      if e.enclosing[i].kind == PackageKind {
        return Success(e.enclosing[i].qualifiedName);
      }
      i := i + 1;
    }
    return Failure(IOError("Failed to find package of " + e.qualifiedName));
  }

  // ---- getFields ----

  /** The parameter lists of all constructors, in declaration order. */
  function Constructors(ms: seq<Member>): seq<seq<VarElement>>
    decreases |ms|
  {
    if |ms| == 0 then []
    else
      Constructors(ms[..|ms| - 1])
        + (if ms[|ms| - 1].ConstructorMember? then [ms[|ms| - 1].params] else [])
  }

  /** Without the Parcelable exemption, every constructor counts. */
  lemma {:induction false} ConstructorsAreCandidates(ms: seq<Member>)
    ensures Constructors(ms) == Kt.Candidates(false, ms)
    decreases |ms|
  {
    if |ms| > 0 {
      ConstructorsAreCandidates(ms[..|ms| - 1]);
    }
  }

  function GetFieldsOf(e: TypeElement): (r: Result<seq<VarElement>, GenError>)
    ensures r.Success? ==> |r.value| > 0
  {
    var cs := Constructors(e.members);
    if |cs| >= 2 then Failure(IOError("Class " + e.qualifiedName + " must have only 1 constructor"))
    else if |cs| == 0 then Failure(IOError("Class " + e.qualifiedName + " must have a constructor"))
    else if |cs[0]| == 0 then Failure(IOError("Class " + e.qualifiedName + " must have a non-empty constructor"))
    else Success(cs[0])
  }

  /** getFields: one pass over the enclosed elements, failing at the second constructor. */
  method GetFields(e: TypeElement) returns (r: Result<seq<VarElement>, GenError>)
    ensures r == GetFieldsOf(e)
  {
    var ms := e.members;
    var ctor: Option<seq<VarElement>> := None;
    var i := 0;
    while i < |ms|
      invariant 0 <= i <= |ms|
      invariant |Constructors(ms[..i])| <= 1
      invariant ctor == if |Constructors(ms[..i])| == 0 then None else Some(Constructors(ms[..i])[0])
    {
      assert ms[..i + 1][..i] == ms[..i];
      if ms[i].ConstructorMember? {
        if ctor.Some? {
          ConstructorsAreCandidates(ms[..i + 1]);
          ConstructorsAreCandidates(ms);
          Kt.CandidatesPrefix(false, ms, i + 1);
          return Failure(IOError("Class " + e.qualifiedName + " must have only 1 constructor"));
        }
        ctor := Some(ms[i].params);
      }
      i := i + 1;
    }
    assert ms[..i] == ms;
    if ctor.None? {
      return Failure(IOError("Class " + e.qualifiedName + " must have a constructor"));
    }
    if |ctor.value| == 0 {
      return Failure(IOError("Class " + e.qualifiedName + " must have a non-empty constructor"));
    }
    return Success(ctor.value);
  }

  /** The Kotlin error, raised as an IOException instead of an AnnotationError. */
  function AsIOError<T>(r: Result<T, GenError>): Result<T, GenError> {
    if r.Failure? && r.error.AnnotationError? then Failure(IOError(r.error.message)) else r
  }

  /** For a class that is not Parcelable the two revisions pick the same fields and fail with the same text. */
  lemma {:induction false} FieldsAgreeWithoutParcelable(e: TypeElement)
    requires !e.isParcelable
    ensures GetFieldsOf(e) == AsIOError(Kt.FieldsOf(e))
  {
    ConstructorsAreCandidates(e.members);
  }

  /**
    Where the revisions part: a Parcelable class with a Parcel constructor next to its data
    constructor has fields in the Kotlin revision and is rejected by the Java one.
  */
  lemma {:induction false} ParcelConstructorOnlyExemptInKotlin(e: TypeElement, parcel: VarElement, data: seq<VarElement>)
    requires e.isParcelable && parcel.assignableToParcel && |data| > 0 && !Kt.IsParcelConstructor(data)
    requires e.members == [ConstructorMember([parcel]), ConstructorMember(data)]
    ensures Kt.FieldsOf(e) == Success(data)
    ensures GetFieldsOf(e) == Failure(IOError("Class " + e.qualifiedName + " must have only 1 constructor"))
  {
    var ms := e.members;
    assert ms[..1] == [ConstructorMember([parcel])] && ms[..1][..0] == [];
    assert Kt.Candidates(true, ms[..1]) == [];
    assert Kt.Candidates(true, ms) == [data];
    assert Constructors(ms[..1]) == [[parcel]];
    assert Constructors(ms) == [[parcel], data];
  }
}
