# A model of the dicpp service host

dicpp is a small dependency-injection container for C++. A `ServiceHost`
keeps an append-only list of (key, service) entries. A service is registered
in one of two ways:

- directly: `RegisterService<I, T>()` stores a default-constructed `T` under
  the key of `I`;
- through its factory: `RegisterService<T>()` reads the parameter list of
  `T::Create`, looks up each parameter's service in the entries registered so
  far, calls `Create` with them in order and stores the result under the key
  of `T`.

`GetService<I>()` scans the entries from the front and returns the first one
whose key is the key of `I`, or null.

The repository holds two near-identical copies of the container:

- `src/` keys entries by `std::type_index` and strips `T*`, `std::shared_ptr<T>`
  and `const std::shared_ptr<T>&` from a parameter before taking its key.
  It is modelled by modules `TemplateHelpers` and `TypeIndexHost`.
- The root copy keys entries by COM `IID` (`__uuidof`). It strips only the
  two `shared_ptr` forms when checking a parameter, and takes the key of the
  parameter type as declared. It is modelled by modules `IidTemplateHelpers`
  and `IidHost`.

Both copies use `function_traits` (module `FunctionTraits`) and the same
lookup table (module `Registry`).

How the C++ is rendered:

- Types are terms of the datatype `CppModel.Ty`.
- A `typeid` key (`TemplateHelpers.TypeIdOf`) wraps the type term with a
  reference and a top-level `const` removed, as `typeid` does. A `__uuidof`
  key wraps the type term as written, so two iids are equal exactly when
  their types are.
- "Derives from `IService`" is a given predicate on class names
  (`CppModel.Hierarchy`).
- A `std::shared_ptr` is a pair of a static pointee type and a nullable
  object reference. `static_pointer_cast` keeps the object and changes only
  the static type.
- Every pack expansion over a `std::tuple` is a function over a sequence.
- A failed template instantiation (a compile error) is a predicate that is
  false. The registration methods require those predicates.
- `T::Create` is foreign code. It is modelled as what every `Create` in the
  repository does: `std::make_shared<T>(args...)`. That is a fresh
  `CppModel.Service` object that records the arguments it received.

`invoke_with_tuple` is the same code in both copies
(src/template_helpers.h:156-167 and template_helpers.h:114-125). It is
modelled once, by `TemplateHelpers.InvokeWithTuple`.

`src/template_helpers.h` also carries a copy of `interface_to_iid_tuple`
(src/template_helpers.h:99-110). The `src/` host never calls it. It is the
same code as the root one and is modelled by
`IidTemplateHelpers.InterfaceToIidTuple`.

Consequences of the code that the proofs make explicit:

- **A `Create` without parameters does not compile.** `validate_arg<IService>`
  is declared but never defined, so both copies reject it.
  `ValidateArgTuple` is false on the empty tuple.
- **A raw-pointer parameter never gets through.** `extract_ptr_type` strips a
  raw `T*`, so `validate_arg` accepts a `Create(IFoo*)`. But the
  `std::shared_ptr<IFoo>` that `invoke_with_tuple` passes cannot initialise an
  `IFoo*`, so a `Create` with a raw pointer in any position never compiles
  (`TypeIndexHost.RawPointerParameterNeverBinds`).
- **The two validations in `src/` are not the same test.** `add_pointer_t`
  removes a reference before adding the pointer, so the second validation
  (src/service_host.h:41) accepts an `IFoo&` parameter that the first
  (src/service_host.h:36) rejects. Whatever the first accepts, the second
  accepts too (`TemplateHelpers.RevalidationAccepts`), so the first decides.
- **`const` does not change a `src/` key.** `typeid` drops a top-level
  `const`, so a `std::shared_ptr<const IFoo>` parameter in any position receives the service
  registered for `IFoo` (`TypeIndexHost.ConstPointeeResolvesInterface`).

One more point is a hazard, not a defect: `RegisterService<I, T>()` never
checks that `T` implements `I`. `RegisterDirect` requires only that `T` is a
non-const class deriving from `IService`. Under the assumption on
`CppModel.Hierarchy` (below) that is what the conversion to
`std::shared_ptr<IService>` needs.

## Model

| member | source | states |
|---|---|---|
| `FunctionTraits.TraitsOf` | function_traits.h:5-62 | function_traits is complete exactly for a function type or member-function pointer with none, const, &, const&, && or const&& qualifiers and no ellipsis, and rejects every other type. Arity is the number of declared parameters, args_tuple lists them in order, result_type is the return type |
| `FunctionTraits.QualifiersIgnored` | function_traits.h:29-42 | the five qualified function types have the same traits as the unqualified R(Args...) |
| `FunctionTraits.MemberPointerIgnoresClass` | function_traits.h:44-62 | a pointer to a member function of any class, with any handled qualifier, has the traits of R(Args...): the class is dropped and no implicit this is counted |
| `TemplateHelpers.TypeIdOfClass` | src/service_host.h:55-67 | the typeid key of a class type ignores a top-level const and a reference, and two class types have equal keys exactly when their names are equal |
| `TemplateHelpers.TypeIdIgnoresReference` | src/template_helpers.h:85 | removing a reference, as add_pointer_t does, never changes a typeid key |
| `TemplateHelpers.ExtractPtrTypeUnwrapsOnce` | src/template_helpers.h:14-36 | extract_ptr_type removes exactly one T*, shared_ptr<T> or const shared_ptr<T>& layer, even when the inner type is itself wrapped (stripping is not recursive) |
| `TemplateHelpers.ExtractPtrTypeKeepsUnwrapped` | src/template_helpers.h:14-18 | a type that is none of the three wrappers is returned unchanged |
| `TemplateHelpers.ValidateArg` | src/template_helpers.h:42-58 | validate_arg<IService, ts...> compiles iff the pack is non-empty and every element, stripped, derives from IService; one failing element rejects the whole pack |
| `TemplateHelpers.ValidateArgTuple` | src/template_helpers.h:60-76 | validate_arg_tuple over std::tuple<ts...> accepts iff the tuple is non-empty and every stripped element derives from IService; the empty tuple is rejected |
| `TemplateHelpers.ExtractSmartPtrTuple` | src/template_helpers.h:82-93 | element i is add_pointer_t of the stripped i-th element, so a pointer to it with any reference removed; length and order are kept |
| `TemplateHelpers.PointerTupleStripsBack` | src/template_helpers.h:85 | stripping element i of the pointer tuple again gives back the stripped i-th element without its reference |
| `TemplateHelpers.RevalidationAccepts` | src/service_host.h:35-41 | every tuple the first validation accepts, the second validation over the pointer tuple accepts too |
| `TemplateHelpers.RevalidationAcceptsReference` | src/service_host.h:35-41 | the converse fails: a reference to a service class is rejected by the first validation and accepted by the second |
| `TemplateHelpers.InterfaceToIndexesTuple` | src/template_helpers.h:116-127 | element i is the typeid key of the stripped i-th element; the output length equals the input length |
| `TemplateHelpers.InterfaceToServiceTuple` | src/template_helpers.h:134-150 | one handle per key: handle i shares the object the resolver returns for key i and has the stripped i-th type as its static type |
| `TemplateHelpers.InvokeWithTuple` | src/template_helpers.h:156-167 | the function is called with exactly the tuple's elements in positional order, and only when the tuple size equals its arity |
| `IidTemplateHelpers.RemoveSharedPtrUnwrapsOnce` | template_helpers.h:12-28 | remove_shared_ptr turns shared_ptr<T> and const shared_ptr<T>& into T and leaves a raw T* unchanged |
| `IidTemplateHelpers.RemoveSharedPtrKeepsOthers` | template_helpers.h:12-16 | every type that is neither shared_ptr<T> nor const shared_ptr<T>& is returned unchanged |
| `IidTemplateHelpers.ValidateArg` | template_helpers.h:34-50 | validate_arg<IService, ts...> compiles iff the pack is non-empty and every element, with its shared_ptr removed, derives from IService |
| `IidTemplateHelpers.ValidateArgTuple` | template_helpers.h:52-68 | validate_arg_tuple over std::tuple<ts...> accepts iff the tuple is non-empty and every element without its shared_ptr derives from IService; the empty tuple is rejected |
| `IidTemplateHelpers.InterfaceToIidTuple` | template_helpers.h:74-85 | element i is the iid of the i-th type as written, with no stripping; length and order are kept |
| `IidTemplateHelpers.InterfaceToServiceTuple` | template_helpers.h:92-108 | one handle per iid: handle i shares the object the resolver returns for iid i, and its static type is the i-th type with its shared_ptr removed |
| `Registry.Lookup` | src/service_host.h:71-82 | a non-null result is the service of some entry registered under the requested key |
| `Registry.LookupFindsFirstMatch` | src/service_host.h:74-79 | the entry at the first index carrying the key is the one returned |
| `Registry.LookupMissIsNull` | src/service_host.h:81 | a key that no entry carries yields null; a corollary of Lookup's contract |
| `Registry.LookupNullIffMissing` | src/service_host.h:71-82 | when every stored service is non-null, the lookup is null exactly when no entry carries the key |
| `Registry.LookupIsFirstMatch` | src/service_host.h:71-82 | the lookup returns the service of the first entry carrying the key, and null when no entry does |
| `Registry.Resolve` | src/service_host.h:47-50 | the resolver lambda (the same in service_host.h:39-42) returns, as an IService, the service of the first entry under the key, and null when no entry carries it |
| `Registry.LookupAfterAppend` | src/service_host.h:55-79 | appending an entry leaves the lookup of every key already present unchanged, so the earliest registration wins; a key new to the table then finds the appended service |
| `CppModel.Service.Created` | test/DependencyInjection.cpp:58-61 | Create's make_shared<T>(args...) builds an object of type T that keeps exactly the arguments it was given |
| `CppModel.Service.DefaultConstructed` | src/service_host.h:61 | make_shared<T>() builds an object of type T that received no arguments |
| `TypeIndexHost.CreateCompiles` | src/service_host.h:33-54 | RegisterService<T>() compiles exactly when Create is an unqualified function type without ellipsis whose parameters, at least one, are all shared_ptr<X> or const shared_ptr<X>& with X deriving from IService |
| `TypeIndexHost.CreateArguments` | src/service_host.h:38-54 | Create receives one argument per parameter: argument i is the service registered under the typeid key of the stripped i-th parameter type (null if none), cast to that stripped type without its reference |
| `TypeIndexHost.MissingDependencyForwardsNull` | src/service_host.h:47-54 | a dependency that is not registered reaches Create as a null handle |
| `TypeIndexHost.ConstPointeeResolvesInterface` | src/service_host.h:44-51 | a parameter in any position whose stripped type is const X (shared_ptr<const X> or const shared_ptr<const X>&) is resolved from the entry registered for X |
| `TypeIndexHost.RawPointerParameterNeverBinds` | src/template_helpers.h:20-24 | a raw pointer to a service passes validate_arg, yet a Create with a raw pointer in any position can never be registered |
| `TypeIndexHost.ServiceHost.constructor` | src/service_host.h:85 | a new host holds no entries |
| `TypeIndexHost.ServiceHost.RegisterFactory` | src/service_host.h:30-56 | appends exactly one entry and leaves the earlier ones unchanged. The entry holds a fresh T built from the resolved arguments and is stored under typeid(T). A missing dependency still lets the registration go through |
| `TypeIndexHost.ServiceHost.RegisterDirect` | src/service_host.h:58-62 | appends exactly one entry, a fresh default-constructed T under typeid(I), with nothing resolved; earlier entries are unchanged |
| `TypeIndexHost.ServiceHost.GetService` | src/service_host.h:64-68 | returns the first entry registered under typeid(I), cast to I, and null exactly when none is; changes nothing |
| `TypeIndexHost.ServiceHost.GetServiceByIndex` | src/service_host.h:71-82 | the loop returns the service of the first entry in insertion order whose key equals the index, and null when no entry matches |
| `TypeIndexHost.RepeatedLookupsAgree` | src/service_host.h:64-82 | two lookups of the same interface hand out the same object |
| `TypeIndexHost.ServiceACompiles` | test/DependencyInjection.cpp:58 | RegisterService<ServiceA>() compiles: both Create parameters are const shared_ptr handles to services |
| `TypeIndexHost.ServiceAArguments` | test/DependencyInjection.cpp:58-61 | ServiceA::Create receives the first IFoo and the first IBar registered, typed as IFoo and IBar |
| `TypeIndexHost.DemoLookups` | src/service_host.h:64-82 | after the four demonstration registrations, looking up IFoo, IBar and ServiceA finds the entry made for each |
| `TypeIndexHost.DemoRegistration` | test/DependencyInjection.cpp:77-85 | after Foo, Bar and Zoo are registered directly and ServiceA from its Create, the ServiceA found was built from exactly the IFoo and IBar services registered before it, in parameter order |
| `IidHost.CreateCompiles` | service_host.h:30-46 | RegisterService<T>() compiles exactly when Create is an unqualified function type without ellipsis whose parameters, at least one, are all shared_ptr<X> or const shared_ptr<X>& with X deriving from IService |
| `IidHost.CreateArguments` | service_host.h:30-46 | Create receives one argument per parameter: argument i is the service registered under the iid of the i-th parameter type as declared (null if none), cast to that type without its shared_ptr |
| `IidHost.MissingDependencyForwardsNull` | service_host.h:39-47 | a dependency that is not registered reaches Create as a null handle |
| `IidHost.ServiceHost.constructor` | service_host.h:77 | a new host holds no entries |
| `IidHost.ServiceHost.RegisterFactory` | service_host.h:27-48 | appends exactly one entry and leaves the earlier ones unchanged. The entry holds a fresh T built from the resolved arguments and is stored under __uuidof(T). A missing dependency still lets the registration go through |
| `IidHost.ServiceHost.RegisterDirect` | service_host.h:50-54 | appends exactly one entry, a fresh default-constructed T under __uuidof(I); earlier entries are unchanged |
| `IidHost.ServiceHost.GetService` | service_host.h:56-60 | returns the first entry registered under __uuidof(I), cast to I, and null exactly when none is; changes nothing |
| `IidHost.ServiceHost.GetServiceByIid` | service_host.h:63-74 | the loop returns the service of the first entry whose iid equals the argument, and null when none does |

## Left out

- `T::Create`'s own body is foreign code. It is modelled as `std::make_shared<T>(args...)`. A `Create` that returns null or an object it already had is not modelled. Neither is the check that its return type converts to `std::shared_ptr<IService>`.
- `typeid` and `std::type_index` are compiler intrinsics. The key drops a reference and a top-level `const`, and is otherwise injective on the type term. `volatile` is not modelled, nor `const` on anything but a class type.
- `__uuidof` is a compiler intrinsic. It is modelled as an injective key of the type term as written. MSVC ignores a `const` or a reference on the type; the root host's keys do not model that.
- MSVC's rule for the `__uuidof` of a template specialisation is not modelled. Neither is the compile error for a type without a uuid. With an injective key, the root host looks a `const std::shared_ptr<IFoo>&` parameter up under its own iid, not under `IFoo`'s. So the demonstration scenario (DependencyInjection.cpp:79-92) is proved only for the `src/` host (`TypeIndexHost.DemoRegistration`).
- `std::shared_ptr` reference counting, object lifetime and allocation failure are not modelled. A handle is a nullable reference.
- The template machinery itself is not modelled, only what each metafunction produces: `std::index_sequence`, `std::forward`, `decltype(auto)`, and partial ordering of the specialisations.
- A `Create` parameter that is itself a `std::tuple` would select the tuple specialisation of `validate_arg`. It is not modelled, because `Ty` has no tuple types.
- `validate_arg_tuple_impl` (src/template_helpers.h:66-70, template_helpers.h:58-62) is never called, and the root copy is ill-formed.
- The `what<T>` declaration and the `CreateService` macro push/pop change nothing.
- The service methods of the demonstration programs (`DoFoo`, `DoBar`, `DoServiceWork`) only print.
- The registry has no concurrency and no floating point.
- `RegisterFactory` and `RegisterDirect` take the class hierarchy as a parameter. It stands for the compiler's knowledge of which classes derive from `IService`. It is assumed to give `IService` as a public, unambiguous, non-virtual base of every class it names; `std::is_base_of` alone would also admit private, ambiguous and virtual bases.
- TypeIndexHost.CreateCompiles: a class that inherits `IService` twice (say through both `IFoo` and `IBar`), privately or virtually passes `validate_arg` but fails the `static_pointer_cast` from `std::shared_ptr<IService>` (src/template_helpers.h:138-139); such a hierarchy is outside the model, so the iff holds only under the assumption on the hierarchy.
- IidHost.CreateCompiles: the same holds for the root copy's `static_pointer_cast` (template_helpers.h:96-97).
- TypeIndexHost.ServiceHost.RegisterDirect, and IidHost.ServiceHost.RegisterDirect likewise: whether `T` is abstract or default-constructible is not modelled; `std::make_shared<T>()` rejects both, the model accepts them. Whether the conversion of `T` to `std::shared_ptr<IService>` is ambiguous or inaccessible is covered only by the assumption on the hierarchy.
