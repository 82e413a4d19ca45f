# moshi-generator, modelled in Dafny

moshi-generator is an annotation processor. For every class annotated `@GenerateMoshi` it writes
a Moshi `JsonAdapter` (`<Class>Adapter`), and for every `@GenerateMoshiFactory` it writes a
`JsonAdapter.Factory` that hands out those adapters. This project models the processor's core
in both revisions, Kotlin and Java:

- the validity checks on an annotated class;
- how the class's package, constructor parameters, writer fields and getters are found;
- the `fromJson` and `toJson` bodies the adapter generator emits;
- the factory the factory generator emits, and what that factory does at run time;
- how a factory annotation is read;
- one processing round: data classes first, then factories, then the warnings.

The emitted code is not modelled as text. Each generated method body is a sequence of abstract
statements (`GeneratedAdapter.ReaderStmt`, `GeneratedAdapter.WriterStmt`). The model gives those
statements a meaning over an abstract JSON value: `FromJson` interprets a reader body and
`ToJson` a writer body. The properties are then stated about the code the generator emits, for
example:

- the generated reader accepts every object whose required keys are present;
- it skips unknown keys;
- it throws the "is non-optional" IOException for the first required key that is missing;
- the generated writer emits one `name`/`value` pair per writer field, between
  `beginObject`/`endObject`;
- reading back what the writer wrote gives the same constructor arguments.

Modules, one per file:

| file | module | models |
|---|---|---|
| wrappers.dfy | Wrappers | `Option` and `Result` |
| lang_model.dfy | LangModel | the javax.lang.model view of a class: type names, modifiers, enclosing elements, members, superclass levels, the `@GenerateMoshi` options |
| generated_adapter.dfy | GeneratedAdapter | generated statements and their meaning (JsonReader/JsonWriter semantics) |
| field_reads.dfy | FieldReads | the generated `fromJson` body, described per constructor parameter, and what it accepts and rejects |
| annotated_class_kt.dfy | AnnotatedClassKt | MoshiAnnotatedClass.kt |
| annotated_class_java.dfy | AnnotatedClassJava | MoshiAnnotatedClass.java, compared with the Kotlin class |
| adapter_generator_kt.dfy | AdapterGeneratorKt | AdapterGenerator.kt |
| adapter_generator_java.dfy | AdapterGeneratorJava | AdapterGenerator.java, compared with the Kotlin generator |
| factory_generator.dfy | FactoryGenerator | MoshiFactoryGenerator.kt and the emitted factory class at run time |
| factory_annotated_class.dfy | FactoryAnnotations | MoshiFactoryAnnotatedClass.kt |
| processor_factory.dfy | ProcessorFactoryKt | ProcessorFactory.kt: `process`, `processDataClasses`, `processFactory` |
| example_data.dfy | ExampleData | concrete cases built on the example module's Simple and Nested classes |

Loops in the source are methods with `while`/`for` loops. Each is proved equal to a
specification function, and the lemmas are stated about those functions. Three entities are
classes whose fields the source updates in place:

- `MoshiFactoryAnnotatedClass`, whose `init` loop updates `className`, `_targetPackage` and
  `moshiClasses`;
- the generated factory's adapter map;
- each generated adapter's bound `Moshi` instance.

## Model

| member | source | states |
|---|---|---|
| LangModel.NearestPackage | moshi-generator/src/main/kotlin/com/chimerapps/moshigenerator/MoshiAnnotatedClass.kt:46-56 | None exactly when no enclosing element is a package; otherwise the innermost package's name, with no package element before it |
| LangModel.Capitalize | moshi-generator/src/main/kotlin/com/chimerapps/moshigenerator/AdapterGenerator.kt:333-339 | same length and the same text after the first character; a first character from a to z becomes the upper-case letter 32 code points below, any other first character is kept |
| LangModel.JoinSnoc | moshi-generator/src/main/kotlin/com/chimerapps/moshigenerator/AdapterGenerator.kt:296-301 | joining with one more element appends the separator and the element |
| GeneratedAdapter.ToShort | moshi-generator/src/main/kotlin/com/chimerapps/moshigenerator/AdapterGenerator.kt:235-236 | the `(short)` cast yields a value in the 16-bit range that is congruent to its input modulo 2^16 |
| GeneratedAdapter.Dispatch | moshi-generator/src/main/kotlin/com/chimerapps/moshigenerator/AdapterGenerator.kt:144-150 | the switch finds no case exactly when no label equals the name; otherwise it finds the first case with that label |
| GeneratedAdapter.ExecAppend | moshi-generator/src/main/kotlin/com/chimerapps/moshigenerator/AdapterGenerator.kt:127-168 | running two statement lists in sequence is running the first, then the second on its outcome |
| GeneratedAdapter.DeclaredSlots | moshi-generator/src/main/kotlin/com/chimerapps/moshigenerator/AdapterGenerator.kt:134-137 | every declared local starts as null; no other local is added and none is removed |
| GeneratedAdapter.FirstMissing | moshi-generator/src/main/kotlin/com/chimerapps/moshigenerator/AdapterGenerator.kt:194-202 | the null checks pass exactly when every checked local is set; otherwise the first unset one throws its message |
| GeneratedAdapter.ExecDeclarations | moshi-generator/src/main/kotlin/com/chimerapps/moshigenerator/AdapterGenerator.kt:134-137 | the declarations only introduce null locals and never stop the method |
| GeneratedAdapter.ExecChecks | moshi-generator/src/main/kotlin/com/chimerapps/moshigenerator/AdapterGenerator.kt:194-202 | the null checks throw the first missing local's IOException, or let control continue unchanged |
| GeneratedAdapter.RunReaderPlan | moshi-generator/src/main/kotlin/com/chimerapps/moshigenerator/AdapterGenerator.kt:127-168 | a reader body (declarations, `beginObject`, switch loop, `endObject`, checks, `return new`) behaves as its stage-by-stage outcome |
| GeneratedAdapter.ExecObject | moshi-generator/src/main/kotlin/com/chimerapps/moshigenerator/AdapterGenerator.kt:127-168 | `beginObject`, the switch loop and `endObject` fail on a non-object or on the first failing read, else leave the slots the loop produced |
| GeneratedAdapter.LoopAppend | moshi-generator/src/main/kotlin/com/chimerapps/moshigenerator/AdapterGenerator.kt:139-152 | the `while (reader.hasNext())` loop over two runs of members is the loop over the first followed by the loop over the second |
| GeneratedAdapter.LoopSkipsUnknown | moshi-generator/src/main/kotlin/com/chimerapps/moshigenerator/AdapterGenerator.kt:150 | a member whose name matches no case is skipped: the loop ends as if it were absent |
| GeneratedAdapter.TrackAbsent | moshi-generator/src/main/kotlin/com/chimerapps/moshigenerator/AdapterGenerator.kt:144-150 | a local whose label never occurs keeps its value |
| GeneratedAdapter.LoopTracks | moshi-generator/src/main/kotlin/com/chimerapps/moshigenerator/AdapterGenerator.kt:139-152 | after the loop, each case's local holds what the last member with its label read |
| GeneratedAdapter.ToJsonAppend | moshi-generator/src/main/kotlin/com/chimerapps/moshigenerator/AdapterGenerator.kt:170-192 | the tokens of two writer statement lists are the tokens of the first followed by those of the second |
| FieldReads.Decls | moshi-generator/src/main/kotlin/com/chimerapps/moshigenerator/AdapterGenerator.kt:134-137 | the first part of the body is only local declarations |
| FieldReads.Checks | moshi-generator/src/main/kotlin/com/chimerapps/moshigenerator/AdapterGenerator.kt:194-202 | the null-check part is only null checks |
| FieldReads.BlockLayout | moshi-generator/src/main/kotlin/com/chimerapps/moshigenerator/AdapterGenerator.kt:127-168 | one declaration per parameter, then `beginObject`, the switch loop, `endObject`, the checks, and finally `return new <Class>(<params>)` |
| FieldReads.ChecksFirstMissing | moshi-generator/src/main/kotlin/com/chimerapps/moshigenerator/AdapterGenerator.kt:194-202 | the checks pass exactly when every required parameter is set; otherwise they throw the message of the first required parameter left null |
| FieldReads.ChecksHead | moshi-generator/src/main/kotlin/com/chimerapps/moshigenerator/AdapterGenerator.kt:194-202 | the checks fail at the first parameter when it is required and null, else exactly as the checks of the remaining parameters |
| FieldReads.ChecksStep | moshi-generator/src/main/kotlin/com/chimerapps/moshigenerator/AdapterGenerator.kt:194-202 | appending the next parameter's check (present only when required) keeps the emitted checks a prefix of all the checks |
| FieldReads.DispatchOwnCase | moshi-generator/src/main/kotlin/com/chimerapps/moshigenerator/AdapterGenerator.kt:144-150 | with distinct labels, each parameter's JSON name selects its own case |
| FieldReads.LoopValueAt | moshi-generator/src/main/kotlin/com/chimerapps/moshigenerator/AdapterGenerator.kt:139-152 | after the loop, parameter i's local holds the value read from the last member named by its label, or null |
| FieldReads.LoopValues | moshi-generator/src/main/kotlin/com/chimerapps/moshigenerator/AdapterGenerator.kt:139-152 | the same, for all parameters at once |
| FieldReads.BlockNotObject | moshi-generator/src/main/kotlin/com/chimerapps/moshigenerator/AdapterGenerator.kt:138 | input that is not a JSON object fails `beginObject` with a JsonDataException |
| FieldReads.BlockLoopFails | moshi-generator/src/main/kotlin/com/chimerapps/moshigenerator/AdapterGenerator.kt:139-152 | a value that a case cannot read propagates that case's exception |
| FieldReads.BlockConstructs | moshi-generator/src/main/kotlin/com/chimerapps/moshigenerator/AdapterGenerator.kt:155-166 | when every read succeeds and every required parameter is set, the body returns `new <Class>` with the parameters' values in constructor order |
| FieldReads.BlockMissing | moshi-generator/src/main/kotlin/com/chimerapps/moshigenerator/AdapterGenerator.kt:194-202 | when reads succeed but a required parameter is unset, the body throws the IOException of the first such parameter |
| FieldReads.BlockIgnoresUnknown | moshi-generator/src/main/kotlin/com/chimerapps/moshigenerator/AdapterGenerator.kt:150 | inserting a member with an unknown name anywhere does not change the outcome |
| FieldReads.TrackLastWins | moshi-generator/src/main/kotlin/com/chimerapps/moshigenerator/AdapterGenerator.kt:144-150 | a later member with the same label overwrites the earlier value |
| FieldReads.TrackUnique | moshi-generator/src/main/kotlin/com/chimerapps/moshigenerator/AdapterGenerator.kt:144-150 | a label that occurs once yields the value read from that member |
| FieldReads.LoopOverPairs | moshi-generator/src/main/kotlin/com/chimerapps/moshigenerator/AdapterGenerator.kt:139-152 | the loop accepts the members a writer emits, one per parameter, when each value is readable by its case |
| FieldReads.ReadsBack | moshi-generator/src/main/kotlin/com/chimerapps/moshigenerator/AdapterGenerator.kt:127-168 | an object with exactly one member per parameter, each readable, is constructed with exactly those values |
| AnnotatedClassKt.CheckValid | moshi-generator/src/main/kotlin/com/chimerapps/moshigenerator/MoshiAnnotatedClass.kt:35-44 | passes exactly for public non-abstract classes; otherwise "is not public" (checked first) or "is abstract" |
| AnnotatedClassKt.IsParcelConstructor | moshi-generator/src/main/kotlin/com/chimerapps/moshigenerator/MoshiAnnotatedClass.kt:118-124 | definition: exactly one parameter, and it is assignable to android.os.Parcel |
| AnnotatedClassKt.IsCandidate | moshi-generator/src/main/kotlin/com/chimerapps/moshigenerator/MoshiAnnotatedClass.kt:68-75 | definition: a constructor, unless the class is Parcelable and it is a Parcel constructor; SingleConstructorRule states the rule built on it |
| AnnotatedClassKt.PackageName | moshi-generator/src/main/kotlin/com/chimerapps/moshigenerator/MoshiAnnotatedClass.kt:46-56 | the enclosing-element loop returns the nearest package, or fails with "Failed to find package of" |
| AnnotatedClassKt.CandidatesShape | moshi-generator/src/main/kotlin/com/chimerapps/moshigenerator/MoshiAnnotatedClass.kt:70-82 | no candidate constructor, two or more, or exactly one, characterised over the members |
| AnnotatedClassKt.OnlyCandidatePicked | moshi-generator/src/main/kotlin/com/chimerapps/moshigenerator/MoshiAnnotatedClass.kt:70-82 | when exactly one constructor is a candidate, its parameters are the fields |
| AnnotatedClassKt.CandidatesPrefix | moshi-generator/src/main/kotlin/com/chimerapps/moshigenerator/MoshiAnnotatedClass.kt:70-82 | candidates found in a prefix of the members are a prefix of all candidates |
| AnnotatedClassKt.FieldsOf | moshi-generator/src/main/kotlin/com/chimerapps/moshigenerator/MoshiAnnotatedClass.kt:68-91 | when fields succeeds the list is non-empty |
| AnnotatedClassKt.SingleConstructorRule | moshi-generator/src/main/kotlin/com/chimerapps/moshigenerator/MoshiAnnotatedClass.kt:68-91 | one candidate gives its parameters, or the "non-empty constructor" error; two give "must have only 1 constructor"; none gives "must have a constructor"; Parcel constructors of Parcelable classes are skipped |
| AnnotatedClassKt.Fields | moshi-generator/src/main/kotlin/com/chimerapps/moshigenerator/MoshiAnnotatedClass.kt:68-91 | the constructor loop computes FieldsOf |
| AnnotatedClassKt.WalkLength | moshi-generator/src/main/kotlin/com/chimerapps/moshigenerator/MoshiAnnotatedClass.kt:96-99 | the walk covers every declared level up to the first undeclared one or `java.lang.Object`, and stops there |
| AnnotatedClassKt.HasGetter | moshi-generator/src/main/kotlin/com/chimerapps/moshigenerator/MoshiAnnotatedClass.kt:152-169 | the loop answers whether some walked level declares a public method with that name, no parameters and that return type |
| AnnotatedClassKt.LevelWriterFieldsMembership | moshi-generator/src/main/kotlin/com/chimerapps/moshigenerator/MoshiAnnotatedClass.kt:100-111 | a field of one level is kept exactly when it is neither transient nor static and is public or has a get/is/plain getter |
| AnnotatedClassKt.WriterFieldsFromMembership | moshi-generator/src/main/kotlin/com/chimerapps/moshigenerator/MoshiAnnotatedClass.kt:93-115 | a field is collected exactly when some walked level declares it and it passes the filter |
| AnnotatedClassKt.WriterFieldsMembership | moshi-generator/src/main/kotlin/com/chimerapps/moshigenerator/MoshiAnnotatedClass.kt:93-115 | the same, for the class's own walk |
| AnnotatedClassKt.WriterFieldsFromCons | moshi-generator/src/main/kotlin/com/chimerapps/moshigenerator/MoshiAnnotatedClass.kt:93-115 | the fields of one level come before those of the levels after it |
| AnnotatedClassKt.SubclassFieldsFirst | moshi-generator/src/main/kotlin/com/chimerapps/moshigenerator/MoshiAnnotatedClass.kt:93-115 | the class's own writer fields come first, then its superclasses' |
| AnnotatedClassKt.OwnLevelWalked | moshi-generator/src/main/kotlin/com/chimerapps/moshigenerator/MoshiAnnotatedClass.kt:95-99 | the walk always includes the class's own level |
| AnnotatedClassKt.LevelFields | moshi-generator/src/main/kotlin/com/chimerapps/moshigenerator/MoshiAnnotatedClass.kt:100-111 | the inner loop computes the level's writer fields |
| AnnotatedClassKt.WriterFields | moshi-generator/src/main/kotlin/com/chimerapps/moshigenerator/MoshiAnnotatedClass.kt:93-115 | the outer loop computes WriterFieldsOf |
| AnnotatedClassKt.GetFieldByName | moshi-generator/src/main/kotlin/com/chimerapps/moshigenerator/MoshiAnnotatedClass.kt:134-138 | None exactly when no field has the name; otherwise the first field with it |
| AnnotatedClassKt.HasVisibleField | moshi-generator/src/main/kotlin/com/chimerapps/moshigenerator/MoshiAnnotatedClass.kt:130-132 | definition: the first field the class declares with that name exists and is not private (used by AccessorAsWritten and ValueAccessorOf) |
| AnnotatedClassJava.IsValid | moshi-generator/src/main/java/com/chimerapps/moshigenerator/MoshiAnnotatedClass.java:34-46 | valid exactly for public non-abstract classes, and then no error is logged; at most one error is logged |
| AnnotatedClassJava.ValidityAgrees | moshi-generator/src/main/java/com/chimerapps/moshigenerator/MoshiAnnotatedClass.java:34-46 | the Java check accepts exactly what the Kotlin check accepts, and logs the Kotlin check's message |
| AnnotatedClassJava.GetPackage | moshi-generator/src/main/java/com/chimerapps/moshigenerator/MoshiAnnotatedClass.java:48-57 | succeeds exactly when some enclosing element is a package, and then returns the nearest one |
| AnnotatedClassJava.ConstructorsAreCandidates | moshi-generator/src/main/java/com/chimerapps/moshigenerator/MoshiAnnotatedClass.java:59-78 | the Java revision considers every constructor: the Kotlin candidate rule without the Parcel exemption |
| AnnotatedClassJava.GetFieldsOf | moshi-generator/src/main/java/com/chimerapps/moshigenerator/MoshiAnnotatedClass.java:59-78 | a successful result is non-empty |
| AnnotatedClassJava.GetFields | moshi-generator/src/main/java/com/chimerapps/moshigenerator/MoshiAnnotatedClass.java:59-78 | the constructor loop computes GetFieldsOf |
| AnnotatedClassJava.FieldsAgreeWithoutParcelable | moshi-generator/src/main/java/com/chimerapps/moshigenerator/MoshiAnnotatedClass.java:59-78 | for a class that is not Parcelable, the Java result is the Kotlin result, with the errors raised as IOException |
| AnnotatedClassJava.ParcelConstructorOnlyExemptInKotlin | moshi-generator/src/main/kotlin/com/chimerapps/moshigenerator/MoshiAnnotatedClass.kt:74-76 | a Parcelable class with a data constructor and a Parcel constructor: Kotlin reads the data constructor, Java rejects "must have only 1 constructor" |
| AdapterGeneratorKt.IsNullable | moshi-generator/src/main/kotlin/com/chimerapps/moshigenerator/AdapterGenerator.kt:311-319 | nullable exactly when an IntelliJ or Android `@Nullable` annotation is present |
| AdapterGeneratorKt.JsonFieldName | moshi-generator/src/main/kotlin/com/chimerapps/moshigenerator/AdapterGenerator.kt:321-324 | definition: the `@Json` name when the field has one, else its simple name |
| AdapterGeneratorKt.EraseWildcards | moshi-generator/src/main/kotlin/com/chimerapps/moshigenerator/AdapterGenerator.kt:304-305 | the result is never a wildcard |
| AdapterGeneratorKt.TypeExpr | moshi-generator/src/main/kotlin/com/chimerapps/moshigenerator/AdapterGenerator.kt:288-309 | definition of makeType: `Types.newParameterizedType(<raw>.class, <args>)` for a parameterized type, the upper bound for a wildcard, `<name>.class` otherwise; TypeExprErasesWildcards and AdapterGeneratorJava.MakeType state its properties |
| AdapterGeneratorKt.TypeExprErasesWildcards | moshi-generator/src/main/kotlin/com/chimerapps/moshigenerator/AdapterGenerator.kt:288-309 | makeType renders a wildcard as its upper bound, at every depth |
| AdapterGeneratorKt.FieldReadRule | moshi-generator/src/main/kotlin/com/chimerapps/moshigenerator/AdapterGenerator.kt:204-255 | byte and char fields fail with "Byte not supported" / "Char not supported"; any other field gets a case labelled with its JSON name that fills its own local, is required exactly when it has no Nullable marker, accepts JSON null exactly when it is a nullable String, boolean, int, long or double, and delegates every other declared type to an adapter |
| AdapterGeneratorKt.PrimitiveRead | moshi-generator/src/main/kotlin/com/chimerapps/moshigenerator/AdapterGenerator.kt:227-255 | definition of generatePrimitiveReader: the read per primitive kind, null-guarded when nullable except for short and float, AnnotationError for byte and char |
| AdapterGeneratorKt.ReaderCall | moshi-generator/src/main/kotlin/com/chimerapps/moshigenerator/AdapterGenerator.kt:204-216 | definition of generateReader's choice: primitives and boxed primitives first, then String, else a delegated adapter |
| AdapterGeneratorKt.FieldReadOf | moshi-generator/src/main/kotlin/com/chimerapps/moshigenerator/AdapterGenerator.kt:134-150 | definition of one parameter's local, case, required flag and missing message; FieldReadRule states its properties |
| AdapterGeneratorKt.ReadsOfRule | moshi-generator/src/main/kotlin/com/chimerapps/moshigenerator/AdapterGenerator.kt:145-149 | the switch can be built exactly when every field's read can, with one read per field in order |
| AdapterGeneratorKt.ReadsLength | moshi-generator/src/main/kotlin/com/chimerapps/moshigenerator/AdapterGenerator.kt:145-149 | one read per field |
| AdapterGeneratorKt.ReadsOfFirstFailure | moshi-generator/src/main/kotlin/com/chimerapps/moshigenerator/AdapterGenerator.kt:145-149 | generation stops with the error of the first unsupported field |
| AdapterGeneratorKt.ReadAt | moshi-generator/src/main/kotlin/com/chimerapps/moshigenerator/AdapterGenerator.kt:134-150 | read i uses field i's name as its local, its JSON name as its label, and its boxed type; it is required exactly when the field is not nullable |
| AdapterGeneratorKt.DeclareLocals | moshi-generator/src/main/kotlin/com/chimerapps/moshigenerator/AdapterGenerator.kt:134-137 | the loop declares one boxed, null-initialised local per field, in order |
| AdapterGeneratorKt.SwitchCases | moshi-generator/src/main/kotlin/com/chimerapps/moshigenerator/AdapterGenerator.kt:144-150 | the loop builds the cases exactly when ReadsOf succeeds, and otherwise fails with its error |
| AdapterGeneratorKt.NullChecks | moshi-generator/src/main/kotlin/com/chimerapps/moshigenerator/AdapterGenerator.kt:194-202 | the loop emits one check per required field, with the "is non-optional but was not found in the json" message |
| AdapterGeneratorKt.CreateReaderBlock | moshi-generator/src/main/kotlin/com/chimerapps/moshigenerator/AdapterGenerator.kt:127-168 | the method builds ReaderBlockOf: the fields error, the first unsupported field's error, or the reader body |
| AdapterGeneratorKt.ReaderParts | moshi-generator/src/main/kotlin/com/chimerapps/moshigenerator/AdapterGenerator.kt:134-166 | one boxed null local per parameter, in order, and the constructor arguments are the parameter names, in order |
| AdapterGeneratorKt.ReaderShape | moshi-generator/src/main/kotlin/com/chimerapps/moshigenerator/AdapterGenerator.kt:127-168 | for supported fields the body is the per-parameter block of FieldReads |
| AdapterGeneratorKt.ReadsFacts | moshi-generator/src/main/kotlin/com/chimerapps/moshigenerator/AdapterGenerator.kt:134-150 | ReadAt for every index |
| AdapterGeneratorKt.ReadsWellFormed | moshi-generator/src/main/kotlin/com/chimerapps/moshigenerator/AdapterGenerator.kt:134-150 | with distinct field names and JSON names, locals and labels are distinct and each case writes its own local |
| AdapterGeneratorKt.FromJsonReadFails | moshi-generator/src/main/kotlin/com/chimerapps/moshigenerator/AdapterGenerator.kt:139-152 | a value one case cannot read makes fromJson throw that read's exception |
| AdapterGeneratorKt.FromJsonConstructs | moshi-generator/src/main/kotlin/com/chimerapps/moshigenerator/AdapterGenerator.kt:155-166 | when all reads succeed and every required field is present, fromJson constructs the class from the values read |
| AdapterGeneratorKt.FromJsonMissing | moshi-generator/src/main/kotlin/com/chimerapps/moshigenerator/AdapterGenerator.kt:194-202 | when a required field is absent, fromJson throws the IOException naming the first absent required field |
| AdapterGeneratorKt.SomeRequiredUnset | moshi-generator/src/main/kotlin/com/chimerapps/moshigenerator/AdapterGenerator.kt:194-202 | if not every required JSON name occurs, some required local stays null |
| AdapterGeneratorKt.FirstUnsetIsFirstAbsent | moshi-generator/src/main/kotlin/com/chimerapps/moshigenerator/AdapterGenerator.kt:194-202 | the first required local left null belongs to the first required field whose JSON name is absent |
| AdapterGeneratorKt.UnknownKeySkipped | moshi-generator/src/main/kotlin/com/chimerapps/moshigenerator/AdapterGenerator.kt:150 | a member with a name no field uses does not change fromJson's outcome |
| AdapterGeneratorKt.AccessorAsWritten | moshi-generator/src/main/kotlin/com/chimerapps/moshigenerator/AdapterGenerator.kt:326-340 | valueAccessor as written: the field by its own name exactly when the class has a visible field of that name; otherwise a boolean whose is-getter exists gets that is-getter; every other field gets `get<Name>()` |
| AdapterGeneratorKt.WriterFieldReadable | moshi-generator/src/main/kotlin/com/chimerapps/moshigenerator/MoshiAnnotatedClass.kt:104-107 | with the corrected accessor, every writer field is read through something the class declares |
| AdapterGeneratorKt.CorrectionConservative | moshi-generator/src/main/kotlin/com/chimerapps/moshigenerator/AdapterGenerator.kt:326-340 | the corrected accessor equals the as-written one wherever the as-written one is readable |
| AdapterGeneratorKt.FieldWritesAgree | moshi-generator/src/main/kotlin/com/chimerapps/moshigenerator/AdapterGenerator.kt:181-185 | two accessor choices that agree on every field give the same field writes |
| AdapterGeneratorKt.WriterAsWrittenWhereReadable | moshi-generator/src/main/kotlin/com/chimerapps/moshigenerator/AdapterGenerator.kt:170-192 | when valueAccessor as written names something readable for every writer field, the generator's writer block is the one written with the accessors as written |
| AdapterGeneratorKt.AccessorAsWrittenUnreadable | moshi-generator/src/main/kotlin/com/chimerapps/moshigenerator/AdapterGenerator.kt:339 | a private field served by a public `name()` method is a writer field, yet valueAccessor emits `getName()`, which does not exist |
| AdapterGeneratorKt.ValueAccessor | moshi-generator/src/main/kotlin/com/chimerapps/moshigenerator/AdapterGenerator.kt:326-340 | the method computes the corrected accessor |
| AdapterGeneratorKt.FieldWritesNoGuard | moshi-generator/src/main/kotlin/com/chimerapps/moshigenerator/AdapterGenerator.kt:181-185 | no field write is wrapped in a null guard; nulls are handed to the JsonWriter |
| AdapterGeneratorKt.FieldWriter | moshi-generator/src/main/kotlin/com/chimerapps/moshigenerator/AdapterGenerator.kt:218-225 | definition of generateWriter: `writer.value` for primitives, boxed primitives and String, else the type's adapter; FieldWriterTokens states what it writes |
| AdapterGeneratorKt.WriteFields | moshi-generator/src/main/kotlin/com/chimerapps/moshigenerator/AdapterGenerator.kt:181-185 | the loop emits a `writer.name` and a value write per writer field, in order |
| AdapterGeneratorKt.WritesStep | moshi-generator/src/main/kotlin/com/chimerapps/moshigenerator/AdapterGenerator.kt:181-185 | appending the next field's `writer.name` and value write keeps the emitted statements a prefix of all the field writes |
| AdapterGeneratorKt.CreateWriterBlock | moshi-generator/src/main/kotlin/com/chimerapps/moshigenerator/AdapterGenerator.kt:170-192 | the method builds WriterBlockOf |
| AdapterGeneratorKt.ToJsonCons | moshi-generator/src/main/kotlin/com/chimerapps/moshigenerator/AdapterGenerator.kt:170-192 | the writer's tokens are the first statement's tokens followed by the rest's |
| AdapterGeneratorKt.ToJsonPair | moshi-generator/src/main/kotlin/com/chimerapps/moshigenerator/AdapterGenerator.kt:181-185 | a name write and a value write followed by the rest produce their two tokens followed by the rest's |
| AdapterGeneratorKt.FieldWriterTokens | moshi-generator/src/main/kotlin/com/chimerapps/moshigenerator/AdapterGenerator.kt:181-185 | a field's `writer.name` writes its JSON name; its value write writes the accessed value, through the type's adapter unless primitive, boxed or String |
| AdapterGeneratorKt.FieldWritesRun | moshi-generator/src/main/kotlin/com/chimerapps/moshigenerator/AdapterGenerator.kt:181-185 | the field writes produce the name and value tokens of each writer field |
| AdapterGeneratorKt.FieldTokensMembers | moshi-generator/src/main/kotlin/com/chimerapps/moshigenerator/AdapterGenerator.kt:181-185 | two tokens per field, forming one JSON member per field |
| AdapterGeneratorKt.FieldPairsCons | moshi-generator/src/main/kotlin/com/chimerapps/moshigenerator/AdapterGenerator.kt:181-185 | the members written are the first field's (JSON name, value) followed by those of the remaining fields |
| AdapterGeneratorKt.WriterNull | moshi-generator/src/main/kotlin/com/chimerapps/moshigenerator/AdapterGenerator.kt:173-177 | with the writer enabled, a null value writes JSON null and nothing else |
| AdapterGeneratorKt.WriterDisabled | moshi-generator/src/main/kotlin/com/chimerapps/moshigenerator/AdapterGenerator.kt:188-190 | with generateWriter off, toJson only delegates to the next adapter |
| AdapterGeneratorKt.BodyThenEnd | moshi-generator/src/main/kotlin/com/chimerapps/moshigenerator/AdapterGenerator.kt:180-187 | the field writes followed by `endObject` produce the field tokens and then the end token |
| AdapterGeneratorKt.WriterObject | moshi-generator/src/main/kotlin/com/chimerapps/moshigenerator/AdapterGenerator.kt:170-192 | a non-null value is written as one JSON object with a member per writer field, 2·n+2 tokens |
| AdapterGeneratorKt.ObjectBlockRun | moshi-generator/src/main/kotlin/com/chimerapps/moshigenerator/AdapterGenerator.kt:170-192 | for a non-null value the writer body emits `beginObject`, the field tokens and `endObject`, which read back as one object of the field members |
| AdapterGeneratorKt.ReadsAccept | moshi-generator/src/main/kotlin/com/chimerapps/moshigenerator/AdapterGenerator.kt:204-255 | when every written value is readable by its case (and not null for a required field), each required read yields a value and each case is labelled with the writer field's JSON name |
| AdapterGeneratorKt.RoundTrip | moshi-generator/src/main/kotlin/com/chimerapps/moshigenerator/AdapterGenerator.kt:127-192 | when the writer fields carry the constructor parameters' JSON names in order and each written value is readable (and not null where required), reading back the object toJson wrote constructs the class from exactly those values |
| AdapterGeneratorKt.WrittenPairs | moshi-generator/src/main/kotlin/com/chimerapps/moshigenerator/AdapterGenerator.kt:180-185 | the written object's members are the (JSON name, value) pairs the reader expects |
| AdapterGeneratorKt.Generate | moshi-generator/src/main/kotlin/com/chimerapps/moshigenerator/AdapterGenerator.kt:40-83 | the adapter `<Simple>Adapter` in the class's package, with the reader and writer bodies; a `<Simple>AdapterFactory` for exactly the class when generateFactory is set; errors propagate |
| AdapterGeneratorJava.MakeType | moshi-generator/src/main/java/com/chimerapps/moshigenerator/AdapterGenerator.java:238-260 | the Java makeType loop yields the same type expression as the Kotlin recursion |
| AdapterGeneratorJava.AppendPart | moshi-generator/src/main/java/com/chimerapps/moshigenerator/AdapterGenerator.java:238-260 | adding the next type argument, preceded by ", " unless it is the first, extends the joined argument list by that argument |
| AdapterGeneratorJava.FieldReadRule | moshi-generator/src/main/java/com/chimerapps/moshigenerator/AdapterGenerator.java:176-224 | byte and char fail with an IOException; any other field gets a case labelled with its simple name, never null-guarded, required exactly when it lacks the JetBrains Nullable marker, and delegating non-primitive, non-String types to an adapter |
| AdapterGeneratorJava.PrimitiveRead | moshi-generator/src/main/java/com/chimerapps/moshigenerator/AdapterGenerator.java:199-224 | definition of generatePrimitive: the read per primitive kind, IOException for byte and char |
| AdapterGeneratorJava.ReaderCall | moshi-generator/src/main/java/com/chimerapps/moshigenerator/AdapterGenerator.java:176-188 | definition of generateReader's choice: primitives and boxed primitives first, then `nextString`, else a delegated adapter |
| AdapterGeneratorJava.FieldReadOf | moshi-generator/src/main/java/com/chimerapps/moshigenerator/AdapterGenerator.java:130-164 | definition of one parameter's local, case (labelled with the simple name, never null-guarded), required flag and missing message; FieldReadRule states its properties |
| AdapterGeneratorJava.ReadsOfRule | moshi-generator/src/main/java/com/chimerapps/moshigenerator/AdapterGenerator.java:130-164 | the switch can be built exactly when every field's read can |
| AdapterGeneratorJava.ReadsOfFirstFailure | moshi-generator/src/main/java/com/chimerapps/moshigenerator/AdapterGenerator.java:130-164 | generation fails with the first unsupported field's error |
| AdapterGeneratorJava.ReadAt | moshi-generator/src/main/java/com/chimerapps/moshigenerator/AdapterGenerator.java:130-164 | read i uses field i's simple name as label and local, is required exactly when the field is not nullable, and reads a String field with `nextString` |
| AdapterGeneratorJava.ReadsFacts | moshi-generator/src/main/java/com/chimerapps/moshigenerator/AdapterGenerator.java:130-164 | ReadAt for every index |
| AdapterGeneratorJava.ReadsWellFormed | moshi-generator/src/main/java/com/chimerapps/moshigenerator/AdapterGenerator.java:130-164 | with distinct field names, locals and labels are distinct |
| AdapterGeneratorJava.SwitchCases | moshi-generator/src/main/java/com/chimerapps/moshigenerator/AdapterGenerator.java:141-150 | the loop builds the cases exactly when ReadsOf succeeds |
| AdapterGeneratorJava.NullChecks | moshi-generator/src/main/java/com/chimerapps/moshigenerator/AdapterGenerator.java:166-174 | one check per required field, in order |
| AdapterGeneratorJava.CreateReaderBlock | moshi-generator/src/main/java/com/chimerapps/moshigenerator/AdapterGenerator.java:130-164 | the method builds ReaderBlockOf |
| AdapterGeneratorJava.ReaderParts | moshi-generator/src/main/java/com/chimerapps/moshigenerator/AdapterGenerator.java:130-164 | one boxed null local per parameter, in order, and the constructor arguments are the parameter names, in order |
| AdapterGeneratorJava.ReaderShape | moshi-generator/src/main/java/com/chimerapps/moshigenerator/AdapterGenerator.java:130-164 | for supported fields the body is the per-parameter block of FieldReads |
| AdapterGeneratorJava.ReadsLength | moshi-generator/src/main/java/com/chimerapps/moshigenerator/AdapterGenerator.java:130-164 | one read per field |
| AdapterGeneratorJava.UnknownKeySkipped | moshi-generator/src/main/java/com/chimerapps/moshigenerator/AdapterGenerator.java:148 | an unknown member does not change fromJson's outcome |
| AdapterGeneratorJava.NullStringRejected | moshi-generator/src/main/java/com/chimerapps/moshigenerator/AdapterGenerator.java:181-183 | a JSON null for a String field makes the Java reader throw, whether or not the field is `@Nullable` |
| AdapterGeneratorJava.FromJsonMissing | moshi-generator/src/main/java/com/chimerapps/moshigenerator/AdapterGenerator.java:166-174 | a missing required field throws the IOException of the first such field |
| AdapterGeneratorJava.ReadsBackBySimpleName | moshi-generator/src/main/java/com/chimerapps/moshigenerator/AdapterGenerator.java:130-164 | an object keyed by simple names, one readable value per field, is constructed with those values |
| AdapterGeneratorJava.FieldReadAgreesWithKotlin | moshi-generator/src/main/java/com/chimerapps/moshigenerator/AdapterGenerator.java:176-224 | for a field with no `@Json` name and no Nullable marker, the Java read equals the Kotlin read, with its errors raised as IOException |
| AdapterGeneratorJava.NullableStringDiffers | moshi-generator/src/main/java/com/chimerapps/moshigenerator/AdapterGenerator.java:181-183 | a `@Nullable` String reads JSON null as null in Kotlin, but throws in Java |
| AdapterGeneratorJava.ToJsonDelegates | moshi-generator/src/main/java/com/chimerapps/moshigenerator/AdapterGenerator.java:82-92 | the Java toJson only delegates to the next adapter |
| AdapterGeneratorJava.ToJsonIsKotlinWithoutWriter | moshi-generator/src/main/java/com/chimerapps/moshigenerator/AdapterGenerator.java:82-92 | that is the Kotlin writer body with generateWriter off |
| AdapterGeneratorJava.FactoryCreate | moshi-generator/src/main/java/com/chimerapps/moshigenerator/AdapterGenerator.java:226-236 | the nested factory returns the adapter exactly for its own class, and null otherwise |
| AdapterGeneratorJava.Generate | moshi-generator/src/main/java/com/chimerapps/moshigenerator/AdapterGenerator.java:51-80 | the adapter `<Simple>Adapter` in the class's package, with the Java reader and the delegating writer; a `<Simple>AdapterFactory` in the same package exactly when generateFactory is set, whose create serves only the annotated class; errors come from the reader or the package lookup |
| AdapterGeneratorJava.FactoryNamesAdapter | moshi-generator/src/main/java/com/chimerapps/moshigenerator/AdapterGenerator.java:68-75 | the factory's adapter name `<qualified name>Adapter` equals the generated adapter's name exactly when the class sits directly in its package, not inside another class |
| FactoryGenerator.Generate | moshi-generator/src/main/kotlin/com/chimerapps/moshigenerator/MoshiFactoryGenerator.kt:22-72 | the factory class with the given name and package implements JsonAdapter.Factory, with one registration `<C>` to `<C>Adapter` per listed class, in order |
| FactoryGenerator.RegisteredLast | moshi-generator/src/main/kotlin/com/chimerapps/moshigenerator/MoshiFactoryGenerator.kt:58-72 | a key is found exactly when some registration names it, and then the last such registration decides |
| FactoryGenerator.GeneratedFindsListed | moshi-generator/src/main/kotlin/com/chimerapps/moshigenerator/MoshiFactoryGenerator.kt:58-86 | a type is found exactly when it was listed, and then maps to `<type>Adapter` |
| FactoryGenerator.Adapter.constructor | moshi-generator-runtime/src/main/java/com/chimerapps/moshigenerator/BaseGeneratedAdapter.java:24-27 | a new adapter knows its factory and type and has no Moshi yet |
| FactoryGenerator.Adapter.SetMoshi | moshi-generator-runtime/src/main/java/com/chimerapps/moshigenerator/BaseGeneratedAdapter.java:29-31 | setMoshi rebinds the adapter |
| FactoryGenerator.Factory.constructor | moshi-generator/src/main/kotlin/com/chimerapps/moshigenerator/MoshiFactoryGenerator.kt:58-72 | the map holds exactly the registered keys, each with a fresh adapter of the last registered class, keyed by its own type |
| FactoryGenerator.Factory.Create | moshi-generator/src/main/kotlin/com/chimerapps/moshigenerator/MoshiFactoryGenerator.kt:74-89 | returns the adapter registered for the type, rebound to the caller's Moshi, or null; the map and other adapters are unchanged |
| FactoryGenerator.LookupTwice | moshi-generator/src/main/kotlin/com/chimerapps/moshigenerator/MoshiFactoryGenerator.kt:74-89 | two lookups of one type return the same instance, bound to the later Moshi |
| FactoryAnnotations.ApplyValuesLastWins | moshi-generator/src/main/kotlin/com/chimerapps/moshigenerator/MoshiFactoryAnnotatedClass.kt:47-55 | each setting ends as the last value given for its key, or keeps its old value |
| FactoryAnnotations.LastValueIsAnEntry | moshi-generator/src/main/kotlin/com/chimerapps/moshigenerator/MoshiFactoryAnnotatedClass.kt:47-55 | a key has a last value exactly when some entry names it, and that value is one of the entries |
| FactoryAnnotations.ForeignMirrorIgnored | moshi-generator/src/main/kotlin/com/chimerapps/moshigenerator/MoshiFactoryAnnotatedClass.kt:20-28 | annotations of another type change nothing |
| FactoryAnnotations.UnknownValueIgnored | moshi-generator/src/main/kotlin/com/chimerapps/moshigenerator/MoshiFactoryAnnotatedClass.kt:49-53 | element names other than value, targetClassName and targetPackage change nothing |
| FactoryAnnotations.SingleAnnotation | moshi-generator/src/main/kotlin/com/chimerapps/moshigenerator/MoshiFactoryAnnotatedClass.kt:17-28 | with one `@GenerateMoshiFactory`, the settings are the defaults ("MoshiFactory", "", unset) overridden by its values |
| FactoryAnnotations.TrimStartShape | moshi-generator/src/main/kotlin/com/chimerapps/moshigenerator/MoshiFactoryAnnotatedClass.kt:61 | trimStart drops exactly the leading whitespace |
| FactoryAnnotations.TrimEndShape | moshi-generator/src/main/kotlin/com/chimerapps/moshigenerator/MoshiFactoryAnnotatedClass.kt:61 | trimEnd drops exactly the trailing whitespace |
| FactoryAnnotations.TrimShape | moshi-generator/src/main/kotlin/com/chimerapps/moshigenerator/MoshiFactoryAnnotatedClass.kt:61 | trim yields a substring with only whitespace around it, which is empty or starts and ends with non-whitespace |
| FactoryAnnotations.BlankIffTrimEmpty | moshi-generator/src/main/kotlin/com/chimerapps/moshigenerator/MoshiFactoryAnnotatedClass.kt:58-61 | a string is blank exactly when it trims to "" |
| FactoryAnnotations.TrimIdempotent | moshi-generator/src/main/kotlin/com/chimerapps/moshigenerator/MoshiFactoryAnnotatedClass.kt:61 | trimming twice is trimming once |
| FactoryAnnotations.Trim | moshi-generator/src/main/kotlin/com/chimerapps/moshigenerator/MoshiFactoryAnnotatedClass.kt:61 | definition of String.trim(): whitespace removed from both ends; TrimShape and TrimIdempotent state its properties |
| FactoryAnnotations.FindPackageOfElement | moshi-generator/src/main/kotlin/com/chimerapps/moshigenerator/MoshiFactoryAnnotatedClass.kt:36-45 | definition: the element, then its enclosing elements, until a package; "" past the end; FindPackageIsNearest states it |
| FactoryAnnotations.MakePackage | moshi-generator/src/main/kotlin/com/chimerapps/moshigenerator/MoshiFactoryAnnotatedClass.kt:57-62 | definition: the element's package for a blank value, else the trimmed value; TargetPackageRule states it |
| FactoryAnnotations.FindPackageIsNearest | moshi-generator/src/main/kotlin/com/chimerapps/moshigenerator/MoshiFactoryAnnotatedClass.kt:36-45 | the recursion returns the nearest enclosing package, or "" when there is none |
| FactoryAnnotations.TargetPackageRule | moshi-generator/src/main/kotlin/com/chimerapps/moshigenerator/MoshiFactoryAnnotatedClass.kt:32-34 | a non-blank targetPackage is used trimmed and is then non-empty; a blank one falls back to the element's package |
| FactoryAnnotations.MoshiFactoryAnnotatedClass.constructor | moshi-generator/src/main/kotlin/com/chimerapps/moshigenerator/MoshiFactoryAnnotatedClass.kt:15-28 | after `init` the fields hold the settings InitOf reads off the element's annotations |
| FactoryAnnotations.MoshiFactoryAnnotatedClass.BuildAnnotationFromMirror | moshi-generator/src/main/kotlin/com/chimerapps/moshigenerator/MoshiFactoryAnnotatedClass.kt:47-55 | the fields are updated by the mirror's element values in order |
| FactoryAnnotations.MoshiFactoryAnnotatedClass.MoshiClasses | moshi-generator/src/main/kotlin/com/chimerapps/moshigenerator/MoshiFactoryAnnotatedClass.kt:30 | reading the lateinit list fails with "has not been initialized" when no `value` was given |
| ProcessorFactoryKt.ProcessDataClasses | moshi-generator/src/main/kotlin/com/chimerapps/moshigenerator/ProcessorFactory.kt:77-96 | the loop computes DataClassesOf and stops at the first error |
| ProcessorFactoryKt.StepAccepts | moshi-generator/src/main/kotlin/com/chimerapps/moshigenerator/ProcessorFactory.kt:81-92 | an accepted class is added and its adapter generated |
| ProcessorFactoryKt.StepRejects | moshi-generator/src/main/kotlin/com/chimerapps/moshigenerator/ProcessorFactory.kt:81-92 | a rejected element stops the loop with its error and adds no adapter |
| ProcessorFactoryKt.DataClassesFromAllAccepted | moshi-generator/src/main/kotlin/com/chimerapps/moshigenerator/ProcessorFactory.kt:81-93 | when every element is accepted, all of them are added, each with its adapter, in order |
| ProcessorFactoryKt.DataClassesAllAccepted | moshi-generator/src/main/kotlin/com/chimerapps/moshigenerator/ProcessorFactory.kt:77-96 | the same, for a whole round: adapter i is the one generated for element i |
| ProcessorFactoryKt.DataClassesFromRejects | moshi-generator/src/main/kotlin/com/chimerapps/moshigenerator/ProcessorFactory.kt:81-93 | the first rejected element's error is the result, and only the elements before it get adapters |
| ProcessorFactoryKt.DataClassesFirstRejection | moshi-generator/src/main/kotlin/com/chimerapps/moshigenerator/ProcessorFactory.kt:77-96 | the same, for a whole round |
| ProcessorFactoryKt.Register | moshi-generator/src/main/kotlin/com/chimerapps/moshigenerator/ProcessorFactory.kt:108-114 | the loop computes RegisterOf |
| ProcessorFactoryKt.RegisterKnown | moshi-generator/src/main/kotlin/com/chimerapps/moshigenerator/ProcessorFactory.kt:108-114 | afterwards the known classes are the old ones plus every listed class |
| ProcessorFactoryKt.RegisterCount | moshi-generator/src/main/kotlin/com/chimerapps/moshigenerator/ProcessorFactory.kt:108-114 | each listed class either becomes known or produces one warning |
| ProcessorFactoryKt.RegisterPrefix | moshi-generator/src/main/kotlin/com/chimerapps/moshigenerator/ProcessorFactory.kt:108-114 | warnings and known classes only grow along the list |
| ProcessorFactoryKt.RegisterWarnsRepeat | moshi-generator/src/main/kotlin/com/chimerapps/moshigenerator/ProcessorFactory.kt:109-110 | a class already known, or listed earlier, gets "is registered in multiple factories" |
| ProcessorFactoryKt.RegisterWarnsOnlyRepeats | moshi-generator/src/main/kotlin/com/chimerapps/moshigenerator/ProcessorFactory.kt:109-110 | every warning names a class that was known, or was listed earlier |
| ProcessorFactoryKt.ReportUnregistered | moshi-generator/src/main/kotlin/com/chimerapps/moshigenerator/ProcessorFactory.kt:118-121 | the loop computes Unregistered |
| ProcessorFactoryKt.ProcessFactory | moshi-generator/src/main/kotlin/com/chimerapps/moshigenerator/ProcessorFactory.kt:98-125 | the method computes ProcessFactoryOf |
| ProcessorFactoryKt.FactoriesFromListed | moshi-generator/src/main/kotlin/com/chimerapps/moshigenerator/ProcessorFactory.kt:103-116 | when every factory lists classes: one factory per element, in order, counted, and the known classes are their union |
| ProcessorFactoryKt.ListedFactories | moshi-generator/src/main/kotlin/com/chimerapps/moshigenerator/ProcessorFactory.kt:103-116 | when every factory lists classes: no error, one factory per element appended in order, the count raised by the number of elements |
| ProcessorFactoryKt.ListedKnown | moshi-generator/src/main/kotlin/com/chimerapps/moshigenerator/ProcessorFactory.kt:103-116 | when every factory lists classes: the known classes are those known before plus every class some element lists |
| ProcessorFactoryKt.ProcessFactoryListed | moshi-generator/src/main/kotlin/com/chimerapps/moshigenerator/ProcessorFactory.kt:98-125 | the same, from an empty registry |
| ProcessorFactoryKt.FactoriesFromUnlisted | moshi-generator/src/main/kotlin/com/chimerapps/moshigenerator/ProcessorFactory.kt:104-106 | the first factory without `value` stops the loop with the lateinit error, after the factories before it |
| ProcessorFactoryKt.ProcessFactoryUnlisted | moshi-generator/src/main/kotlin/com/chimerapps/moshigenerator/ProcessorFactory.kt:98-125 | the same, from an empty registry |
| ProcessorFactoryKt.UnregisteredExactly | moshi-generator/src/main/kotlin/com/chimerapps/moshigenerator/ProcessorFactory.kt:118-121 | "is not registered in any factory" is reported exactly for the classes that are neither known nor generate their own factory |
| ProcessorFactoryKt.UnregisteredCount | moshi-generator/src/main/kotlin/com/chimerapps/moshigenerator/ProcessorFactory.kt:118-121 | one warning per such class |
| ProcessorFactoryKt.Process | moshi-generator/src/main/kotlin/com/chimerapps/moshigenerator/ProcessorFactory.kt:47-75 | the method computes RoundOf |
| ProcessorFactoryKt.RoundStopsAtRejection | moshi-generator/src/main/kotlin/com/chimerapps/moshigenerator/ProcessorFactory.kt:57-66 | a rejected data class ends the round with one error, no factories, and adapters only for the classes before it |
| ProcessorFactoryKt.FactoryWarnsUnregistered | moshi-generator/src/main/kotlin/com/chimerapps/moshigenerator/ProcessorFactory.kt:118-121 | when every factory lists its classes, a data class is warned about exactly when no factory lists it and it does not generate its own factory |
| ProcessorFactoryKt.UnregisteredMessageInjective | moshi-generator/src/main/kotlin/com/chimerapps/moshigenerator/ProcessorFactory.kt:120 | distinct classes give distinct warnings |
| ProcessorFactoryKt.RoundWarnsUnregistered | moshi-generator/src/main/kotlin/com/chimerapps/moshigenerator/ProcessorFactory.kt:47-125 | the same, for a whole round in which every data class is accepted and every factory lists its classes |
| ProcessorFactoryKt.RoundDiagnosticsWhenAccepted | moshi-generator/src/main/kotlin/com/chimerapps/moshigenerator/ProcessorFactory.kt:57-66 | when every data class is accepted and every factory lists its classes, the round's diagnostics are processFactory's warnings |
| ProcessorFactoryKt.UnregisteredNotDuplicate | moshi-generator/src/main/kotlin/com/chimerapps/moshigenerator/ProcessorFactory.kt:110-120 | the two warnings can never be confused |
| ProcessorFactoryKt.RegisterWarningsAreDuplicates | moshi-generator/src/main/kotlin/com/chimerapps/moshigenerator/ProcessorFactory.kt:108-114 | every warning from the factory loop is a duplicate warning |
| ProcessorFactoryKt.FactoriesFromDuplicates | moshi-generator/src/main/kotlin/com/chimerapps/moshigenerator/ProcessorFactory.kt:108-114 | the same, from any starting registry |
| ExampleData.FactorySettings | moshi-generator/src/main/kotlin/com/chimerapps/moshigenerator/MoshiFactoryAnnotatedClass.kt:20-62 | a factory listing Simple and Nested with targetPackage " com.example.json " gets the default name, the classes in order and package "com.example.json" |
| ExampleData.DuplicateRegistrations | moshi-generator/src/main/kotlin/com/chimerapps/moshigenerator/ProcessorFactory.kt:108-114 | listing Simple again, with Simple already known, yields two duplicate warnings for Simple and none for Nested |

## Left out

- Writing files through the Filer, logging, `debugLogs` statements and performance tracing are
  not modelled. The generated text is abstracted to statement datatypes, so JavaPoet
  formatting, imports and the `Generated using moshi-generator` Javadoc do not appear.
- Reading and writing delegated (non-primitive, non-String) fields is reduced to one step:
  `moshi.adapter(<type>)` reads or writes the JSON value unchanged. The nested adapters'
  own behaviour is not part of this model.
- Floating point is not modelled: `float` and `double` values are JSON numbers read unchanged.
  The `(float)` narrowing is a no-op in the model.
- Unboxing a null into a primitive constructor parameter is not modelled (it would be a
  NullPointerException at `return new`). Nullable fields keep `Option` values.
- LangModel.Capitalize: only ASCII letters are upper-cased. Kotlin's `capitalize` uses the
  full Unicode title-case mapping.
- Duplicate JSON names among one class's fields are outside the lemmas that need distinct
  labels (those lemmas require them). The generated switch would not compile with duplicate labels.
- Binary names of nested classes (`Outer$Inner`) are not modelled. Class names are plain strings.
- The files of the repository do not fit together everywhere. The model keeps each file's own behaviour:
  - AdapterGenerator.kt (lines 71-77) passes six arguments to MoshiFactoryGenerator, whose
    constructor takes five. The model takes the call to mean the five it declares.
  - The emitted factory builds each adapter as `new <C>Adapter(this, <C>.class)`, the
    constructor of BaseGeneratedAdapter. Both generators emit adapters that extend `JsonAdapter`
    directly, with a four-argument constructor. FactoryGenerator models the emitted factory
    together with the BaseGeneratedAdapter it expects.
  - The Java generator's toJson always delegates to the next adapter.
  - The Java generator never null-guards a String read.
  - MoshiAnnotatedClass.java has no Parcel exemption.
- `writerSerializesNulls` is read by MoshiAnnotatedClass.kt, but the Kotlin generator never
  consults it. The written JSON always contains null members.
- Generated code has no top-level null check on the JSON input: JSON `null` fails
  `beginObject` like any other non-object. This follows the code, not a wrapper around it.
- A round stops at the first failure: ProcessorFactory.kt wraps both passes in one `try`
  (lines 57-66), so one exception ends the round.
- The outer "Failed to execute round" catch (lines 68-71) and the `processingOver` early
  return are modelled only as "no output". No other exception reaches the outer catch in
  this model.
- `return@forEach` in MoshiFactoryAnnotatedClass.kt's `init` (line 25) only ends the current
  lambda call. The loop goes on, so a second `@GenerateMoshiFactory` mirror would also apply.
- Annotation values are assumed to be typed as javac types them (FactoryAnnotations.WellTyped):
  `value` is a class list and the others are strings. `makeValue`'s cast to `List<AnnotationValue>`
  is modelled as a list of qualified class names.
- ProcessorFactoryKt.FactoryWarnsUnregistered and ProcessorFactoryKt.RoundWarnsUnregistered
  require distinct qualified names among the data classes. The element list that javac
  returns has no duplicates.
- The data-class lemmas take the adapter generator as a function parameter (ProcessorFactoryKt.Generator).
  The round itself uses AdapterGeneratorKt.GenerateOf.
- AdapterGeneratorKt.WriteFields, AdapterGeneratorKt.CreateWriterBlock and AdapterGeneratorKt.Generate
  write each field through the corrected accessor (AdapterGeneratorKt.ValueAccessorOf), not through
  valueAccessor as written (AdapterGenerator.kt:326-340). They differ only for a writer field whose
  accessor as written names nothing: there the source emits `value.get<Name>()`, which does not
  compile, and the model emits the getter or public field that made it a writer field (see
  "## Findings"). Everywhere else the two writers are the same (AdapterGeneratorKt.WriterAsWrittenWhereReadable).
- AdapterGeneratorKt.GenerateOf and AdapterGeneratorKt.Generate always build the factory's class name
  `<package>.<Simple>`, and FactoryGenerator.Generate always builds `<class>Adapter`. JavaPoet's
  `ClassName.bestGuess` (AdapterGenerator.kt:73, MoshiFactoryGenerator.kt:68, and AdapterGenerator.java:231)
  throws IllegalArgumentException for a class in the unnamed package (`.Foo`) or with a simple name
  that does not start with an upper-case letter. That failure, which the outer catch of the round
  reports, is not modelled.
- GeneratedAdapter.Read: Moshi's JsonReader coerces some values, but the model does not. `nextInt`,
  `nextLong` and `nextDouble` accept a JSON string that holds a number, and `nextString` accepts a
  bare number. The model fails all of these with JsonDataException. Only the exact JSON kind is read.
- ProcessorFactory.java (the Java revision's processor) is not part of this model.
- GenerateMoshi.java's options are modelled as three booleans (LangModel.Options).
  SimpleLogger.kt and PerformanceTrace.kt are not part of this model.

## Findings

| source | as written | input that shows it | evidently intended | confidence | as-written member | corrected member |
|---|---|---|---|---|---|---|
| moshi-generator/src/main/kotlin/com/chimerapps/moshigenerator/AdapterGenerator.kt:326-340 | valueAccessor falls back to `get<Name>()` for every non-visible, non-boolean field | a public class `Item` whose private String field `name` has a public `name()` method: writerFields keeps `name` (MoshiAnnotatedClass.kt:107), yet the writer emits `value.getName()`, which does not exist | the writer reads each writer field through the getter that made it a writer field (get, is or plain), or the public field itself | not executed | AdapterGeneratorKt.AccessorAsWrittenUnreadable | AdapterGeneratorKt.WriterFieldReadable |
