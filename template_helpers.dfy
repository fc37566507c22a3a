/**
 The metafunctions of the type_index variant (namespace template_helpers of
 src/template_helpers.h). Each pack expansion over a std::tuple becomes a
 function over a sequence; a failed instantiation becomes `false` or a
 precondition.
 */
module TemplateHelpers {
  import opened CppModel

  /** A std::type_index, identified by the cv-unqualified, non-reference type it names. */
  datatype TypeIndex = TypeIndex(ty: Ty)

  /**
   The type typeid(t) describes: a reference is dropped, and so is a top-level
   const on what remains.
   */
  function TypeidType(t: Ty): Ty {
    match t
    case Ref(inner) => TypeidType(inner)
    case ConstRefShared(inner) => Shared(inner)
    case Named(n, _) => Named(n)
    case _ => t
  }

  /** std::type_index(typeid(t)) */
  function TypeIdOf(t: Ty): TypeIndex {
    TypeIndex(TypeidType(t))
  }

  /**
   typeid ignores const and references on a class type, and distinguishes
   every two class types with different names.
   */
  lemma TypeIdOfClass(n: string, c: bool, m: string)
    ensures TypeIdOf(Named(n, c)) == TypeIdOf(Named(n)) == TypeIdOf(Ref(Named(n, c)))
    ensures TypeIdOf(Named(n, c)) == TypeIdOf(Named(m)) <==> n == m
  {
  }

  /** typeid(T&) is typeid(T), so removing a reference first changes no key. */
  lemma TypeIdIgnoresReference(t: Ty)
    ensures TypeIdOf(RemoveReference(t)) == TypeIdOf(t)
  {
  }

  /** The three wrappers extract_ptr_type removes. */
  datatype Wrapper = RawPointer | SharedPointer | ConstRefSharedPointer

  function Wrap(w: Wrapper, t: Ty): Ty {
    match w
    case RawPointer => Ptr(t)
    case SharedPointer => Shared(t)
    case ConstRefSharedPointer => ConstRefShared(t)
  }

  /** extract_ptr_type_t<t> */
  function ExtractPtrType(t: Ty): Ty {
    match t
    case Ptr(inner) => inner
    case Shared(inner) => inner
    case ConstRefShared(inner) => inner  // inherits from the shared_ptr<T> specialisation
    case _ => t
  }

  /** std::remove_reference_t<t> */
  function RemoveReference(t: Ty): Ty {
    if t.Ref? then t.inner else t
  }

  /** std::add_pointer_t<t>: a reference is removed before the pointer is added. */
  function AddPointer(t: Ty): Ty {
    Ptr(RemoveReference(t))
  }

  /** Stripping removes exactly one wrapper, whatever the wrapped type is, even another wrapper. */
  lemma ExtractPtrTypeUnwrapsOnce(w: Wrapper, t: Ty)
    ensures ExtractPtrType(Wrap(w, t)) == t
  {
  }

  /** A type that is none of the three wrappers is left as it is. */
  lemma ExtractPtrTypeKeepsUnwrapped(t: Ty)
    requires !t.Ptr? && !t.Shared? && !t.ConstRefShared?
    ensures ExtractPtrType(t) == t
  {
  }

  /**
   Whether validate_arg<IService, ts...> is a complete type whose static_asserts
   hold. With no type after IService only the primary template matches, and it
   is declared but never defined.
   */
  function ValidateArg(h: Hierarchy, ts: seq<Ty>): (ok: bool)
    ensures ok <==> |ts| > 0 && forall i :: 0 <= i < |ts| ==> DerivesFromIService(h, ExtractPtrType(ts[i]))
  {
    if |ts| == 0 then false
    else if |ts| == 1 then DerivesFromIService(h, ExtractPtrType(ts[0]))
    else
      var first, rest := ValidateArg(h, ts[..1]), ValidateArg(h, ts[1..]);
      assert forall i :: 1 <= i < |ts| ==> ts[i] == ts[1..][i - 1];
      first && rest
  }

  /**
   validate_arg_tuple<IService, std::tuple<ts...>>(): the std::tuple
   specialisation hands the element types on to validate_arg. A Create
   without parameters is rejected.
   */
  function ValidateArgTuple(h: Hierarchy, tuple: seq<Ty>): (ok: bool)
    ensures ok <==> tuple != [] && forall i :: 0 <= i < |tuple| ==> DerivesFromIService(h, ExtractPtrType(tuple[i]))
  {
    ValidateArg(h, tuple)
  }

  /** extract_smart_ptr_tuple<tuple>(): std::tuple<std::add_pointer_t<extract_ptr_type_t<T>>...> */
  function ExtractSmartPtrTuple(tuple: seq<Ty>): (r: seq<Ty>)
    ensures |r| == |tuple|
    ensures forall i :: 0 <= i < |tuple| ==> r[i] == AddPointer(ExtractPtrType(tuple[i]))
  {
    if tuple == [] then [] else [AddPointer(ExtractPtrType(tuple[0]))] + ExtractSmartPtrTuple(tuple[1..])
  }

  /** Stripping an element of the pointer tuple gives back the stripped element without its reference. */
  lemma PointerTupleStripsBack(tuple: seq<Ty>, i: nat)
    requires i < |tuple|
    ensures ExtractPtrType(ExtractSmartPtrTuple(tuple)[i]) == RemoveReference(ExtractPtrType(tuple[i]))
  {
  }

  /** Validating the pointer tuple again accepts everything the first validation accepted. */
  lemma RevalidationAccepts(h: Hierarchy, tuple: seq<Ty>)
    requires ValidateArgTuple(h, tuple)
    ensures ValidateArgTuple(h, ExtractSmartPtrTuple(tuple))
  {
  }

  /**
   The converse fails: add_pointer_t drops a reference, so the second
   validation accepts a reference to a service, which the first rejects.
   */
  lemma RevalidationAcceptsReference(h: Hierarchy, n: string)
    requires h(n)
    ensures !ValidateArgTuple(h, [Ref(Named(n))])
    ensures ValidateArgTuple(h, ExtractSmartPtrTuple([Ref(Named(n))]))
  {
  }

  /** interface_to_indexes_tuple<tuple>(): the type_index of every stripped element. */
  function InterfaceToIndexesTuple(tuple: seq<Ty>): (r: seq<TypeIndex>)
    ensures |r| == |tuple|
    ensures forall i :: 0 <= i < |tuple| ==> r[i] == TypeIdOf(ExtractPtrType(tuple[i]))
  {
    if tuple == [] then [] else [TypeIdOf(ExtractPtrType(tuple[0]))] + InterfaceToIndexesTuple(tuple[1..])
  }

  /**
   interface_to_service_tuple<types>(resolver, keys): one handle per key, the
   i-th resolved from the i-th key and cast to the i-th stripped type. The
   size comes from the key tuple; each I must also index `types`.
   */
  function InterfaceToServiceTuple<K>(types: seq<Ty>, resolver: K -> SharedPtr, keys: seq<K>): (r: seq<SharedPtr>)
    requires |keys| <= |types|
    ensures |r| == |keys|
    ensures forall i :: 0 <= i < |keys| ==> r[i].obj == resolver(keys[i]).obj
    ensures forall i :: 0 <= i < |keys| ==> r[i].pointee == ExtractPtrType(types[i])
  {
    if keys == [] then []
    else [StaticPointerCast(ExtractPtrType(types[0]), resolver(keys[0]))]
         + InterfaceToServiceTuple(types[1..], resolver, keys[1..])
  }

  /**
   The arguments invoke_with_tuple(func, t) calls `func` with:
   std::get<I>(t)... for I in std::make_index_sequence<size>. The call compiles
   only when the tuple size equals func's arity.
   */
  function InvokeWithTuple<A>(arity: nat, t: seq<A>): (args: seq<A>)
    requires |t| == arity
    ensures args == t
  {
    seq(|t|, i requires 0 <= i < |t| => t[i])
  }
}
