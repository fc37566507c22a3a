/**
 ServiceHost of src/service_host.h: services keyed by std::type_index. The
 factory path strips one wrapper (T*, shared_ptr<T> or const shared_ptr<T>&)
 from every Create parameter before taking its type_index.
 */
module TypeIndexHost {
  import opened CppModel
  import opened FunctionTraits
  import opened TemplateHelpers
  import opened Registry

  /**
   The compile-time obligations RegisterService<T>() puts on decltype(T::Create),
   the type of a static member function and so an unqualified function type:
   function_traits accepts it, both validate_arg_tuple calls accept its
   parameters (the raw ones and the pointer tuple), and every parameter can be
   initialised from the std::shared_ptr invoke_with_tuple passes to it.
   Exactly the Create functions whose parameters are all shared_ptr handles to
   services, at least one of them, pass.
   */
  predicate CreateCompiles(h: Hierarchy, create: FunctionLike): (ok: bool)
    ensures ok <==> && create.FunctionType? && create.quals == Unqualified && !create.sig.ellipsis
                    && |create.sig.params| > 0
                    && forall i :: 0 <= i < |create.sig.params| ==> ServiceHandleParameter(h, create.sig.params[i])
  {
    && create.FunctionType? && create.quals == Unqualified
    && var traits := TraitsOf(create);
    && traits.Some?
    && ValidateArgTuple(h, traits.value.argsTuple)
    && ValidateArgTuple(h, ExtractSmartPtrTuple(traits.value.argsTuple))
    && forall i :: 0 <= i < |traits.value.argsTuple| ==> AcceptsSharedPtr(traits.value.argsTuple[i])
  }

  /**
   The arguments RegisterService<T>() passes to T::Create when the registry
   holds `entries`: argument i is whatever is registered under the type_index
   of the i-th stripped parameter type (null when nothing is), seen as a
   pointer to that type.
   */
  function CreateArguments(entries: seq<ServiceEntry<TypeIndex>>, create: FunctionLike): (args: seq<SharedPtr>)
    requires TraitsOf(create).Some?
    ensures |args| == |create.sig.params|
    ensures forall i :: 0 <= i < |args| ==> args[i].pointee == RemoveReference(ExtractPtrType(create.sig.params[i]))
    ensures forall i :: 0 <= i < |args| ==> args[i].obj == Lookup(entries, TypeIdOf(ExtractPtrType(create.sig.params[i])))
  {
    var traits := TraitsOf(create).value;
    var pointers := ExtractSmartPtrTuple(traits.argsTuple);
    var indexes := InterfaceToIndexesTuple(pointers);
    var resolved := InterfaceToServiceTuple(pointers, index => Resolve(entries, index), indexes);
    var args := InvokeWithTuple(traits.arity, resolved);
    assert forall i :: 0 <= i < |args| ==> args[i].obj == Lookup(entries, TypeIdOf(ExtractPtrType(create.sig.params[i]))) by {
      forall i | 0 <= i < |args|
        ensures args[i].obj == Lookup(entries, TypeIdOf(ExtractPtrType(create.sig.params[i])))
      {
        TypeIdIgnoresReference(ExtractPtrType(create.sig.params[i]));
      }
    }
    args
  }

  /** A dependency that is not registered reaches Create as a null handle. */
  lemma MissingDependencyForwardsNull(entries: seq<ServiceEntry<TypeIndex>>, create: FunctionLike, i: nat)
    requires TraitsOf(create).Some? && i < |create.sig.params|
    requires !Registered(entries, TypeIdOf(ExtractPtrType(create.sig.params[i])))
    ensures CreateArguments(entries, create)[i].obj == null
  {
    LookupMissIsNull(entries, TypeIdOf(ExtractPtrType(create.sig.params[i])));
  }

  /**
   A parameter whose stripped type is a const class, std::shared_ptr<const X>
   or const std::shared_ptr<const X>& in any position, is resolved from the
   entry registered for X itself: typeid drops the const.
   */
  lemma ConstPointeeResolvesInterface(entries: seq<ServiceEntry<TypeIndex>>, create: FunctionLike, i: nat, n: string)
    requires TraitsOf(create).Some? && i < |create.sig.params|
    requires ExtractPtrType(create.sig.params[i]) == Named(n, true)
    ensures CreateArguments(entries, create)[i].obj == Lookup(entries, TypeIdOf(Named(n)))
  {
  }

  /**
   extract_ptr_type's T* case never leads to a registration that compiles:
   validate_arg accepts a raw pointer to a service, but the shared_ptr
   invoke_with_tuple passes cannot initialise it.
   */
  lemma RawPointerParameterNeverBinds(h: Hierarchy, create: FunctionLike, i: nat)
    requires TraitsOf(create).Some? && i < |TraitsOf(create).value.argsTuple|
    requires TraitsOf(create).value.argsTuple[i].Ptr?
    ensures ValidateArg(h, [TraitsOf(create).value.argsTuple[i]]) == DerivesFromIService(h, TraitsOf(create).value.argsTuple[i].inner)
    ensures !CreateCompiles(h, create)
  {
  }

  class ServiceHost {
    /** _registeredServices, in insertion order */
    var registeredServices: seq<ServiceEntry<TypeIndex>>

    /** Every stored std::shared_ptr<IService> is non-null: make_shared never yields null. */
    ghost predicate Valid()
      reads this
    {
      forall j :: 0 <= j < |registeredServices| ==> registeredServices[j].service != null
    }

    constructor ()
      ensures Valid() && registeredServices == []
    {
      registeredServices := [];
    }

    /**
     RegisterService<T>(): resolve Create's parameters from the current entries,
     call T::Create with them, and append the result under typeid(T). A
     missing dependency does not stop the registration.
     */
    method RegisterFactory(h: Hierarchy, t: Ty, create: FunctionLike) returns (ghost service: Service)
      requires Valid() && CreateCompiles(h, create)
      modifies this
      ensures Valid()
      ensures fresh(service) && service.concrete == t
      ensures service.ctorArgs == CreateArguments(old(registeredServices), create)
      ensures registeredServices == old(registeredServices) + [ServiceEntry(TypeIdOf(t), service)]
    {
      var args := CreateArguments(registeredServices, create);
      var created := new Service.Created(t, args);
      registeredServices := registeredServices + [ServiceEntry(TypeIdOf(t), created)];
      service := created;
    }

    /**
     RegisterService<I, T>(): append a default-constructed T under typeid(I),
     resolving nothing. Nothing checks that T implements I.
     */
    method RegisterDirect(h: Hierarchy, i: Ty, t: Ty) returns (ghost service: Service)
      requires Valid() && ConvertsToSharedIService(h, t)
      modifies this
      ensures Valid()
      ensures fresh(service) && service.concrete == t && service.ctorArgs == []
      ensures registeredServices == old(registeredServices) + [ServiceEntry(TypeIdOf(i), service)]
    {
      var created := new Service.DefaultConstructed(t);
      registeredServices := registeredServices + [ServiceEntry(TypeIdOf(i), created)];
      service := created;
    }

    /** GetService<I>(): the lookup by typeid(I), cast to I. */
    method GetService(i: Ty) returns (p: SharedPtr)
      requires Valid()
      ensures p.pointee == i
      ensures p.obj == Lookup(registeredServices, TypeIdOf(i))
      ensures p.obj == null <==> !Registered(registeredServices, TypeIdOf(i))
    {
      p := GetServiceByIndex(TypeIdOf(i), i);
    }

    /**
     GetService<I>(index): scan the entries in insertion order and return the
     first one registered under `index`, cast to I; null when there is none.
     */
    method GetServiceByIndex(index: TypeIndex, i: Ty) returns (p: SharedPtr)
      requires Valid()
      ensures p.pointee == i
      ensures p.obj == Lookup(registeredServices, index)
      ensures p.obj == null <==> !Registered(registeredServices, index)
    {
      LookupNullIffMissing(registeredServices, index);
      for j := 0 to |registeredServices|
        invariant forall k :: 0 <= k < j ==> registeredServices[k].key != index
      {
        if registeredServices[j].key == index {
          LookupFindsFirstMatch(registeredServices, index, j);
          return StaticPointerCast(i, SharedPtr(IService, registeredServices[j].service));
        }
      }
      LookupMissIsNull(registeredServices, index);
      return SharedPtr(i, null);
    }
  }

  /**
   GetService changes nothing (it has no modifies clause), so asking twice
   hands out the same object both times.
   */
  method RepeatedLookupsAgree(host: ServiceHost, i: Ty) returns (first: SharedPtr, second: SharedPtr)
    requires host.Valid()
    ensures first == second
  {
    first := host.GetService(i);
    second := host.GetService(i);
  }

  /** The classes of the demonstration program that derive from IService. */
  function DemoHierarchy(): Hierarchy {
    n => n in {"IService", "IFoo", "Foo", "IBar", "Bar", "IZoo", "Zoo", "ServiceA"}
  }

  /** static auto ServiceA::Create(const std::shared_ptr<IFoo>&, const std::shared_ptr<IBar>&) */
  function ServiceACreate(): FunctionLike {
    FunctionType(Signature(Shared(Named("ServiceA")), [ConstRefShared(Named("IFoo")), ConstRefShared(Named("IBar"))], false), Unqualified)
  }

  /** RegisterService<ServiceA>() compiles: both parameters are shared_ptr handles to services. */
  lemma ServiceACompiles()
    ensures CreateCompiles(DemoHierarchy(), ServiceACreate())
  {
    var ps := ServiceACreate().sig.params;
    assert ServiceHandleParameter(DemoHierarchy(), ps[0]);
    assert ServiceHandleParameter(DemoHierarchy(), ps[1]);
  }

  /** ServiceA::Create receives the first IFoo and the first IBar registered, as IFoo and IBar. */
  lemma ServiceAArguments(entries: seq<ServiceEntry<TypeIndex>>, foo: Service?, bar: Service?)
    requires |entries| >= 2
    requires entries[0] == ServiceEntry(TypeIdOf(Named("IFoo")), foo)
    requires entries[1] == ServiceEntry(TypeIdOf(Named("IBar")), bar)
    ensures CreateArguments(entries, ServiceACreate()) == [SharedPtr(Named("IFoo"), foo), SharedPtr(Named("IBar"), bar)]
  {
    var args := CreateArguments(entries, ServiceACreate());
    LookupFindsFirstMatch(entries, TypeIdOf(Named("IFoo")), 0);
    LookupFindsFirstMatch(entries, TypeIdOf(Named("IBar")), 1);
    assert args[0] == SharedPtr(Named("IFoo"), foo);
    assert args[1] == SharedPtr(Named("IBar"), bar);
  }

  /** After the demonstration's four registrations each lookup finds the entry made for it. */
  lemma DemoLookups(entries: seq<ServiceEntry<TypeIndex>>, f: Service?, b: Service?, z: Service?, a: Service?)
    requires entries == [ServiceEntry(TypeIdOf(Named("IFoo")), f), ServiceEntry(TypeIdOf(Named("IBar")), b),
                         ServiceEntry(TypeIdOf(Named("IZoo")), z), ServiceEntry(TypeIdOf(Named("ServiceA")), a)]
    ensures Lookup(entries, TypeIdOf(Named("IFoo"))) == f
    ensures Lookup(entries, TypeIdOf(Named("IBar"))) == b
    ensures Lookup(entries, TypeIdOf(Named("ServiceA"))) == a
  {
    TypeIdOfClass("ServiceA", false, "IFoo");
    TypeIdOfClass("ServiceA", false, "IBar");
    TypeIdOfClass("ServiceA", false, "IZoo");
    TypeIdOfClass("IFoo", false, "IBar");
    LookupFindsFirstMatch(entries, TypeIdOf(Named("ServiceA")), 3);
    LookupFindsFirstMatch(entries, TypeIdOf(Named("IFoo")), 0);
    LookupFindsFirstMatch(entries, TypeIdOf(Named("IBar")), 1);
  }

  /**
   The registration sequence of the demonstration program: Foo under IFoo, Bar
   under IBar, Zoo under IZoo, then ServiceA from its Create. The ServiceA
   found afterwards was built from exactly the Foo and Bar registered first.
   */
  method DemoRegistration() returns (svc: Service?, foo: Service?, bar: Service?)
    ensures foo != null && foo.concrete == Named("Foo")
    ensures bar != null && bar.concrete == Named("Bar")
    ensures svc != null && svc.concrete == Named("ServiceA")
    ensures svc.ctorArgs == [SharedPtr(Named("IFoo"), foo), SharedPtr(Named("IBar"), bar)]
  {
    var h := DemoHierarchy();
    var host := new ServiceHost();
    ghost var f := host.RegisterDirect(h, Named("IFoo"), Named("Foo"));
    ghost var b := host.RegisterDirect(h, Named("IBar"), Named("Bar"));
    ghost var z := host.RegisterDirect(h, Named("IZoo"), Named("Zoo"));
    ghost var before := host.registeredServices;
    ServiceACompiles();
    ghost var a := host.RegisterFactory(h, Named("ServiceA"), ServiceACreate());
    ServiceAArguments(before, f, b);
    DemoLookups(host.registeredServices, f, b, z, a);
    var p := host.GetService(Named("ServiceA"));
    var pf := host.GetService(Named("IFoo"));
    var pb := host.GetService(Named("IBar"));
    svc, foo, bar := p.obj, pf.obj, pb.obj;
  }
}
