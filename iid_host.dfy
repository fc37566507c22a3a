/**
 ServiceHost of the root service_host.h: services keyed by COM interface
 identifiers. The factory path takes the __uuidof of every Create parameter
 type exactly as declared.
 */
module IidHost {
  import opened CppModel
  import opened FunctionTraits
  import opened IidTemplateHelpers
  import opened Registry
  import TemplateHelpers

  /**
   The compile-time obligations RegisterService<T>() puts on decltype(T::Create),
   the type of a static member function and so an unqualified function type:
   function_traits accepts it, validate_arg_tuple accepts its parameters, and
   every parameter can be initialised from the std::shared_ptr
   invoke_with_tuple passes to it. Exactly the Create functions whose
   parameters are all shared_ptr handles to services, at least one of them,
   pass.
   */
  predicate CreateCompiles(h: Hierarchy, create: FunctionLike): (ok: bool)
    ensures ok <==> && create.FunctionType? && create.quals == Unqualified && !create.sig.ellipsis
                    && |create.sig.params| > 0
                    && forall i :: 0 <= i < |create.sig.params| ==> ServiceHandleParameter(h, create.sig.params[i])
  {
    && create.FunctionType? && create.quals == Unqualified
    && var traits := TraitsOf(create);
    && traits.Some?
    && ValidateArgTuple(h, traits.value.argsTuple)
    && forall i :: 0 <= i < |traits.value.argsTuple| ==> AcceptsSharedPtr(traits.value.argsTuple[i])
  }

  /**
   The arguments RegisterService<T>() passes to T::Create when the registry
   holds `entries`: argument i is whatever is registered under the __uuidof
   of the i-th parameter type as declared (null when nothing is), seen as a
   pointer to that type without its shared_ptr.
   */
  function CreateArguments(entries: seq<ServiceEntry<Iid>>, create: FunctionLike): (args: seq<SharedPtr>)
    requires TraitsOf(create).Some?
    ensures |args| == |create.sig.params|
    ensures forall i :: 0 <= i < |args| ==> args[i].pointee == RemoveSharedPtr(create.sig.params[i])
    ensures forall i :: 0 <= i < |args| ==> args[i].obj == Lookup(entries, Iid(create.sig.params[i]))
  {
    var traits := TraitsOf(create).value;
    var iids := InterfaceToIidTuple(traits.argsTuple);
    var resolved := InterfaceToServiceTuple(traits.argsTuple, iid => Resolve(entries, iid), iids);
    TemplateHelpers.InvokeWithTuple(traits.arity, resolved)
  }

  /** A dependency that is not registered reaches Create as a null handle. */
  lemma MissingDependencyForwardsNull(entries: seq<ServiceEntry<Iid>>, create: FunctionLike, i: nat)
    requires TraitsOf(create).Some? && i < |create.sig.params|
    requires !Registered(entries, Iid(create.sig.params[i]))
    ensures CreateArguments(entries, create)[i].obj == null
  {
    LookupMissIsNull(entries, Iid(create.sig.params[i]));
  }

  class ServiceHost {
    /** _registeredServices, in insertion order */
    var registeredServices: seq<ServiceEntry<Iid>>

    /** Every stored std::shared_ptr<IService> is non-null: make_shared never yields null. */
    ghost predicate Valid()
      reads this
    {
      forall j :: 0 <= j < |registeredServices| ==> registeredServices[j].service != null
    }

    constructor ()
      ensures Valid() && registeredServices == []
    {
      registeredServices := [];
    }

    /**
     RegisterService<T>(): resolve Create's parameters from the current entries,
     call T::Create with them, and append the result under __uuidof(T). A
     missing dependency does not stop the registration.
     */
    method RegisterFactory(h: Hierarchy, t: Ty, create: FunctionLike) returns (ghost service: Service)
      requires Valid() && CreateCompiles(h, create)
      modifies this
      ensures Valid()
      ensures fresh(service) && service.concrete == t
      ensures service.ctorArgs == CreateArguments(old(registeredServices), create)
      ensures registeredServices == old(registeredServices) + [ServiceEntry(Iid(t), service)]
    {
      var args := CreateArguments(registeredServices, create);
      var created := new Service.Created(t, args);
      registeredServices := registeredServices + [ServiceEntry(Iid(t), created)];
      service := created;
    }

    /**
     RegisterService<I, T>(): append a default-constructed T under __uuidof(I),
     resolving nothing. Nothing checks that T implements I.
     */
    method RegisterDirect(h: Hierarchy, i: Ty, t: Ty) returns (ghost service: Service)
      requires Valid() && ConvertsToSharedIService(h, t)
      modifies this
      ensures Valid()
      ensures fresh(service) && service.concrete == t && service.ctorArgs == []
      ensures registeredServices == old(registeredServices) + [ServiceEntry(Iid(i), service)]
    {
      var created := new Service.DefaultConstructed(t);
      registeredServices := registeredServices + [ServiceEntry(Iid(i), created)];
      service := created;
    }

    /** GetService<I>(): the lookup by __uuidof(I), cast to I. */
    method GetService(i: Ty) returns (p: SharedPtr)
      requires Valid()
      ensures p.pointee == i
      ensures p.obj == Lookup(registeredServices, Iid(i))
      ensures p.obj == null <==> !Registered(registeredServices, Iid(i))
    {
      p := GetServiceByIid(Iid(i), i);
    }

    /**
     GetService<I>(iid): scan the entries in insertion order and return the
     first one registered under `iid`, cast to I; null when there is none.
     */
    method GetServiceByIid(iid: Iid, i: Ty) returns (p: SharedPtr)
      requires Valid()
      ensures p.pointee == i
      ensures p.obj == Lookup(registeredServices, iid)
      ensures p.obj == null <==> !Registered(registeredServices, iid)
    {
      LookupNullIffMissing(registeredServices, iid);
      for j := 0 to |registeredServices|
        invariant forall k :: 0 <= k < j ==> registeredServices[k].key != iid
      {
        if registeredServices[j].key == iid {
          LookupFindsFirstMatch(registeredServices, iid, j);
          return StaticPointerCast(i, SharedPtr(IService, registeredServices[j].service));
        }
      }
      LookupMissIsNull(registeredServices, iid);
      return SharedPtr(i, null);
    }
  }
}
