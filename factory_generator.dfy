/**
  MoshiFactoryGenerator.kt: the JsonAdapter.Factory class it emits, and what that class does
  at run time -- its constructor fills a map from adapted type to adapter instance, and
  create looks a type up, rebinds the adapter found to the caller's Moshi and returns it,
  or returns null.
*/
module FactoryGenerator {
  import opened Wrappers

  const FactoryInterface: string := "com.squareup.moshi.JsonAdapter.Factory"

  /** `_adapters.put(<key>.class, new <adapterClass>(this, <key>.class));` */
  datatype Registration = Registration(key: string, adapterClass: string)

  /** The emitted factory: `public class <className> implements JsonAdapter.Factory` in packageName. */
  datatype FactoryFile = FactoryFile(
    className: string,
    packageName: string,
    superinterface: string,
    /** the statements of the generated constructor, in order */
    registrations: seq<Registration>)

  /** The file generate writes for these arguments. */
  function FactoryOf(className: string, packageName: string, adapters: seq<string>): FactoryFile {
    FactoryFile(className, packageName, FactoryInterface,
                seq(|adapters|, i requires 0 <= i < |adapters| => Registration(adapters[i], adapters[i] + "Adapter")))
  }

  /** generate: one registration per listed class, in list order; the adapter is named <class>Adapter. */
  method Generate(className: string, packageName: string, adapters: seq<string>) returns (f: FactoryFile)
    ensures f == FactoryOf(className, packageName, adapters)
    ensures f.className == className && f.packageName == packageName && f.superinterface == FactoryInterface
    ensures |f.registrations| == |adapters|
    ensures forall i :: 0 <= i < |adapters| ==>
      f.registrations[i] == Registration(adapters[i], adapters[i] + "Adapter")
  {
    var regs: seq<Registration> := [];
    for i := 0 to |adapters|
      invariant |regs| == i
      invariant forall j :: 0 <= j < i ==> regs[j] == Registration(adapters[j], adapters[j] + "Adapter")
    {
      regs := regs + [Registration(adapters[i], adapters[i] + "Adapter")];
    }
    f := FactoryFile(className, packageName, FactoryInterface, regs);
  }

  /**
    The adapter class a generated constructor leaves in its map under key: HashMap.put
    replaces, so the last registration with that key decides.
  */
  function Registered(regs: seq<Registration>, key: string): Option<string>
    decreases |regs|
  {
    if |regs| == 0 then None
    else if regs[|regs| - 1].key == key then Some(regs[|regs| - 1].adapterClass)
    else Registered(regs[..|regs| - 1], key)
  }

  /** A key is found exactly when some registration names it, and then the last such one decides. */
  lemma {:induction false} RegisteredLast(regs: seq<Registration>, key: string)
    ensures Registered(regs, key).None? <==> forall i :: 0 <= i < |regs| ==> regs[i].key != key
    ensures Registered(regs, key).Some? ==>
      exists i :: 0 <= i < |regs| && regs[i].key == key && Registered(regs, key).value == regs[i].adapterClass
        && forall j :: i < j < |regs| ==> regs[j].key != key
    decreases |regs|
  {
    if |regs| > 0 && regs[|regs| - 1].key != key {
      var init := regs[..|regs| - 1];
      RegisteredLast(init, key);
      assert forall j :: 0 <= j < |init| ==> init[j] == regs[j];
    }
  }

  /** Every class listed to Generate is found under its own name, with its <class>Adapter. */
  lemma {:induction false} GeneratedFindsListed(className: string, packageName: string, adapters: seq<string>, f: FactoryFile, k: string)
    requires |f.registrations| == |adapters|
    requires forall i :: 0 <= i < |adapters| ==>
      f.registrations[i] == Registration(adapters[i], adapters[i] + "Adapter")
    ensures Registered(f.registrations, k) == if k in adapters then Some(k + "Adapter") else None
  {
    RegisteredLast(f.registrations, k);
    if k in adapters {
      var i :| 0 <= i < |adapters| && adapters[i] == k;
      assert f.registrations[i].key == k;
    } else {
      forall i | 0 <= i < |f.registrations|
        ensures f.registrations[i].key != k
      {
        assert f.registrations[i].key == adapters[i];
      }
    }
  }

  /** A Moshi instance handed to create; only its identity matters here. */
  datatype Moshi = Moshi(id: nat)

  /** A generated adapter as the factory holds it: BaseGeneratedAdapter's fields. */
  class Adapter {
    /** BaseGeneratedAdapter.moshi, set by setMoshi */
    var moshi: Option<Moshi>
    const factory: Factory
    const adaptedType: string
    const adapterClass: string

    constructor (factory: Factory, adaptedType: string, adapterClass: string)
      ensures this.factory == factory && this.adaptedType == adaptedType && this.adapterClass == adapterClass
      ensures moshi == None
    {
      this.factory := factory;
      this.adaptedType := adaptedType;
      this.adapterClass := adapterClass;
      moshi := None;
    }

    method SetMoshi(m: Moshi)
      modifies this
      ensures moshi == Some(m)
    {
      moshi := Some(m);
    }
  }

  /** An instance of a generated factory class. */
  class Factory {
    /** `_adapters`: adapted type to the one adapter instance for it */
    var adapters: map<string, Adapter>

    /** Each adapter is keyed by its own type, belongs to this factory, and no two keys share one. */
    ghost predicate Valid()
      reads this
    {
      && (forall k :: k in adapters ==> adapters[k].adaptedType == k && adapters[k].factory == this)
      && (forall k1, k2 :: k1 in adapters && k2 in adapters && k1 != k2 ==> adapters[k1] != adapters[k2])
    }

    /** The generated constructor: run the registrations in order. */
    constructor (regs: seq<Registration>)
      ensures Valid()
      ensures forall k :: k in adapters <==> Registered(regs, k).Some?
      ensures forall k :: k in adapters ==> adapters[k].adapterClass == Registered(regs, k).value
      ensures forall k :: k in adapters ==> fresh(adapters[k]) && adapters[k].moshi == None
    {
      adapters := map[];
      new;
      for i := 0 to |regs|
        invariant Valid()
        invariant forall k :: k in adapters <==> Registered(regs[..i], k).Some?
        invariant forall k :: k in adapters ==> adapters[k].adapterClass == Registered(regs[..i], k).value
        invariant forall k :: k in adapters ==> fresh(adapters[k]) && adapters[k].moshi == None
      {
        assert regs[..i + 1][..i] == regs[..i];
        var a := new Adapter(this, regs[i].key, regs[i].adapterClass);
        adapters := adapters[regs[i].key := a];
      }
      assert regs[..|regs|] == regs;
    }

    /** create: the adapter registered for t, rebound to m, or null. Nothing else changes. */
    method Create(t: string, m: Moshi) returns (r: Adapter?)
      requires Valid()
      modifies if t in adapters then {adapters[t]} else {}
      ensures Valid() && adapters == old(adapters)
      ensures r != null <==> t in adapters
      ensures r != null ==> r == adapters[t] && r.moshi == Some(m)
      ensures forall k :: k in adapters && k != t ==> adapters[k].moshi == old(adapters[k].moshi)
    {
      if t in adapters {
        r := adapters[t];
        r.SetMoshi(m);
      } else {
        r := null;
      }
    }
  }

  /** Two lookups of one type: the same instance both times, bound to the later Moshi. */
  method LookupTwice(f: Factory, t: string, m1: Moshi, m2: Moshi) returns (a: Adapter?, b: Adapter?)
    requires f.Valid()
    modifies if t in f.adapters then {f.adapters[t]} else {}
    ensures a == b && (a == null <==> t !in f.adapters)
    ensures a != null ==> a.moshi == Some(m2) && a.adaptedType == t
  {
    a := f.Create(t, m1);
    b := f.Create(t, m2);
  }
}
