/**
  The class descriptor the generator works on: an explicit, finite picture of what
  javax.lang.model and JavaPoet tell the annotation processor about an annotated class.
  Library queries that the generator only consults (isAssignable to android.os.Parcel,
  isAssignable to android.os.Parcelable) are precomputed flags; isSameType is equality
  of type names.
*/
module LangModel {
  import opened Wrappers

  /** JavaPoet's primitive TypeName constants. */
  datatype PrimKind = Boolean | Byte | Short | Int | Long | Char | Float | Double

  /** JavaPoet's TypeName, reduced to what the generator distinguishes. */
  datatype TypeName =
    | Primitive(kind: PrimKind)
    | Boxed(kind: PrimKind)
      /** A class name, an array type or a type variable, as JavaPoet prints it. */
    | Declared(name: string)
    | Parameterized(raw: string, args: seq<TypeName>)
      /** A JavaPoet wildcard always carries exactly one upper bound (Object for `? super X`). */
    | Wildcard(upperBound: TypeName)

  const StringType: TypeName := Declared("java.lang.String")

  /** TypeName.box(): primitives become their wrapper class, everything else is unchanged. */
  function Box(t: TypeName): TypeName {
    if t.Primitive? then Boxed(t.kind) else t
  }

  function PrimitiveText(k: PrimKind): string {
    match k
    case Boolean => "boolean"
    case Byte => "byte"
    case Short => "short"
    case Int => "int"
    case Long => "long"
    case Char => "char"
    case Float => "float"
    case Double => "double"
  }

  function BoxedText(k: PrimKind): string {
    match k
    case Boolean => "java.lang.Boolean"
    case Byte => "java.lang.Byte"
    case Short => "java.lang.Short"
    case Int => "java.lang.Integer"
    case Long => "java.lang.Long"
    case Char => "java.lang.Character"
    case Float => "java.lang.Float"
    case Double => "java.lang.Double"
  }

  /** TypeName.toString() for the types that are neither parameterized nor wildcards. */
  function SimpleText(t: TypeName): string
    requires !t.Parameterized? && !t.Wildcard?
  {
    match t
    case Primitive(k) => PrimitiveText(k)
    case Boxed(k) => BoxedText(k)
    case Declared(n) => n
  }

  datatype Modifier = Public | Protected | Private | Abstract | Static | Final | Transient | Volatile

  datatype ElementKind = PackageKind | ClassKind | InterfaceKind | EnumKind | AnnotationKind | OtherKind

  /** One link of an enclosing-element chain: its kind and qualified name. */
  datatype Enclosing = Enclosing(kind: ElementKind, qualifiedName: string)

  /** A VariableElement: a constructor parameter or a field. */
  datatype VarElement = VarElement(
    name: string,
    typ: TypeName,
    /** the qualified names of its annotation mirrors, in order */
    annotations: seq<string>,
    /** the name of its @Json annotation, when it has one */
    jsonName: Option<string>,
    modifiers: set<Modifier>,
    /** typeUtil.isAssignable(type, android.os.Parcel) */
    assignableToParcel: bool)

  /** An enclosed element of a type, in declaration order. */
  datatype Member =
    | FieldMember(field: VarElement)
    | ConstructorMember(params: seq<VarElement>)
    | MethodMember(name: string, paramCount: nat, returnType: TypeName, modifiers: set<Modifier>)
    | OtherMember

  /** One step of the superclass chain: whether its TypeMirror is DECLARED, its name and members. */
  datatype ClassLevel = ClassLevel(declared: bool, qualifiedName: string, members: seq<Member>)

  /** The values of @GenerateMoshi. */
  datatype Options = Options(generateFactory: bool, generateWriter: bool, debugLogs: bool)

  const DefaultOptions: Options := Options(false, true, false)

  /** An element annotated with @GenerateMoshi. */
  datatype TypeElement = TypeElement(
    kind: ElementKind,
    simpleName: string,
    qualifiedName: string,
    modifiers: set<Modifier>,
    /** enclosingElement, then its enclosingElement, and so on */
    enclosing: seq<Enclosing>,
    /** enclosedElements, in declaration order */
    members: seq<Member>,
    /** superclass, its superclass, and so on; the chain may end in a non-declared type */
    superclasses: seq<ClassLevel>,
    /** android.os.Parcelable exists and the class is assignable to it */
    isParcelable: bool,
    options: Options)

  /** The levels walked for writer fields and getters: the class itself, then its superclasses. */
  function Levels(e: TypeElement): seq<ClassLevel> {
    [ClassLevel(true, e.qualifiedName, e.members)] + e.superclasses
  }

  /**
    The qualified name of the first PACKAGE in an enclosing-element chain, nearest first,
    or None when the chain holds no package.
  */
  function NearestPackage(chain: seq<Enclosing>): (r: Option<string>)
    ensures r.None? <==> forall i :: 0 <= i < |chain| ==> chain[i].kind != PackageKind
    ensures r.Some? ==>
      exists i :: 0 <= i < |chain| && chain[i].kind == PackageKind && r.value == chain[i].qualifiedName
        && forall j :: 0 <= j < i ==> chain[j].kind != PackageKind
  {
    if |chain| == 0 then None
    else if chain[0].kind == PackageKind then Some(chain[0].qualifiedName)
    else
      var r := NearestPackage(chain[1..]);
      assert forall j :: 1 <= j < |chain| ==> chain[j] == chain[1..][j - 1];
      r
  }

  /** What the generator raises: Kotlin's AnnotationError, Java's IOException, or a lateinit read. */
  datatype GenError = AnnotationError(message: string) | IOError(message: string) | Uninitialized(property: string)

  predicate StartsWith(s: string, prefix: string) {
    |prefix| <= |s| && s[..|prefix|] == prefix
  }

  /** Kotlin's String.capitalize(), for ASCII letters. */
  function Capitalize(s: string): (r: string)
    ensures |r| == |s| && (|s| > 0 ==> r[1..] == s[1..])
    ensures |s| > 0 ==> r[0] == if 'a' <= s[0] <= 'z' then (s[0] as int - 32) as char else s[0]
    ensures |s| > 0 && 'a' <= s[0] <= 'z' ==> 'A' <= r[0] <= 'Z'
  {
    if |s| > 0 && 'a' <= s[0] <= 'z' then [(s[0] as int - 32) as char] + s[1..] else s
  }

  /** The elements of xs separated by sep. */
  function Join(xs: seq<string>, sep: string): string {
    if |xs| == 0 then "" else if |xs| == 1 then xs[0] else xs[0] + sep + Join(xs[1..], sep)
  }

  /** Appending one more element to a non-empty join adds the separator and the element. */
  lemma {:induction false} JoinSnoc(xs: seq<string>, x: string, sep: string)
    ensures Join(xs + [x], sep) == if |xs| == 0 then x else Join(xs, sep) + sep + x
    decreases |xs|
  {
    if |xs| == 1 {
      assert (xs + [x])[1..] == [x];
    } else if |xs| > 1 {
      assert (xs + [x])[1..] == xs[1..] + [x];
      JoinSnoc(xs[1..], x, sep);
    }
  }
}
