/**
 The C++ entities the container works with: type terms, the class hierarchy
 rooted at IService, service objects and std::shared_ptr handles to them.
 */
module CppModel {

  /**
   A C++ type as the container's metafunctions see it. A `const` written on a
   class type is kept in `isConst`; `const std::shared_ptr<T>&` has a
   constructor of its own and is never written with Ref.
   */
  datatype Ty =
    | Named(name: string, isConst: bool := false)  // a class type, possibly const: IService, const IFoo, ...
    | Ptr(inner: Ty)                                // T*
    | Shared(inner: Ty)                             // std::shared_ptr<T>
    | ConstRefShared(inner: Ty)                     // const std::shared_ptr<T>&
    | Ref(inner: Ty)                                // T&, for every other T
    | Other(spelling: string)                       // any other type: int, std::unique_ptr<T>, std::shared_ptr<T>&&, ...

  /** The common base class of every registered service. */
  const IService: Ty := Named("IService")

  /**
   The program's class hierarchy: the names of the classes C for which
   std::is_base_of_v<IService, C> holds (IService itself among them). Every
   class it names is taken to have IService as a public, unambiguous,
   non-virtual base, so that the pointer conversions to and from
   std::shared_ptr<IService> are well-formed for it.
   */
  type Hierarchy = string -> bool

  /**
   std::is_base_of_v<IService, t>: only a class type can derive from IService,
   and cv-qualifiers on it are ignored.
   */
  predicate DerivesFromIService(h: Hierarchy, t: Ty) {
    t.Named? && h(t.name)
  }

  /**
   std::make_shared<t>() converts to std::shared_ptr<IService>: `t` derives
   from IService (through a public, unambiguous base, as Hierarchy assumes)
   and is not const (a pointer to const does not convert to a pointer to
   non-const).
   */
  predicate ConvertsToSharedIService(h: Hierarchy, t: Ty) {
    DerivesFromIService(h, t) && !t.isConst
  }

  /**
   A parameter of type `p` can be initialised from the std::shared_ptr to its
   stripped type that invoke_with_tuple passes: `std::shared_ptr<X>` and
   `const std::shared_ptr<X>&` can; a shared_ptr converts neither to a raw
   `X*` nor to an `X` or `X&`. (A `std::shared_ptr<X>&` is not stripped, so
   it would be handed a shared_ptr to itself and does not bind either.)
   */
  predicate AcceptsSharedPtr(p: Ty) {
    p.Shared? || p.ConstRefShared?
  }

  /**
   A Create parameter every container copy accepts: a std::shared_ptr<X> or a
   const std::shared_ptr<X>& whose X derives from IService.
   */
  predicate ServiceHandleParameter(h: Hierarchy, p: Ty) {
    (p.Shared? || p.ConstRefShared?) && DerivesFromIService(h, p.inner)
  }

  /**
   An object owned through std::shared_ptr. `concrete` is the type it was
   constructed as; `ctorArgs` are the handles its construction received.
   */
  class Service {
    const concrete: Ty
    const ctorArgs: seq<SharedPtr>

    /** std::make_shared<T>() */
    constructor DefaultConstructed(t: Ty)
      ensures concrete == t && ctorArgs == []
    {
      concrete := t;
      ctorArgs := [];
    }

    /** std::make_shared<T>(args...), the body of every T::Create in the program */
    constructor Created(t: Ty, args: seq<SharedPtr>)
      ensures concrete == t && ctorArgs == args
    {
      concrete := t;
      ctorArgs := args;
    }
  }

  /** A std::shared_ptr<pointee>: its static pointee type and the object it shares (null when empty). */
  datatype SharedPtr = SharedPtr(pointee: Ty, obj: Service?)

  /** std::static_pointer_cast<to>(p): the same object, seen through another static type. */
  function StaticPointerCast(to: Ty, p: SharedPtr): SharedPtr {
    SharedPtr(to, p.obj)
  }
}
