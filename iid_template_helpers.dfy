/**
 The metafunctions of the COM variant (namespace template_helpers of the root
 template_helpers.h): keys are interface identifiers and only std::shared_ptr
 wrappers are removed.
 */
module IidTemplateHelpers {
  import opened CppModel

  /** __uuidof(T): two identifiers are equal exactly when their types are. */
  datatype Iid = Iid(ty: Ty)

  /** remove_shared_ptr_t<t> */
  function RemoveSharedPtr(t: Ty): Ty {
    match t
    case Shared(inner) => inner
    case ConstRefShared(inner) => inner  // inherits from the shared_ptr<T> specialisation
    case _ => t
  }

  /**
   Both shared_ptr forms lose exactly one layer; a raw pointer and every other
   type are left unchanged.
   */
  lemma RemoveSharedPtrUnwrapsOnce(t: Ty)
    ensures RemoveSharedPtr(Shared(t)) == t && RemoveSharedPtr(ConstRefShared(t)) == t
    ensures RemoveSharedPtr(Ptr(t)) == Ptr(t)
  {
  }

  /** Every type other than the two shared_ptr forms is left as it is. */
  lemma RemoveSharedPtrKeepsOthers(t: Ty)
    requires !t.Shared? && !t.ConstRefShared?
    ensures RemoveSharedPtr(t) == t
  {
  }

  /**
   Whether validate_arg<IService, ts...> is a complete type whose static_asserts
   hold; the primary template, the only match for an empty pack, has no
   definition.
   */
  function ValidateArg(h: Hierarchy, ts: seq<Ty>): (ok: bool)
    ensures ok <==> |ts| > 0 && forall i :: 0 <= i < |ts| ==> DerivesFromIService(h, RemoveSharedPtr(ts[i]))
  {
    if |ts| == 0 then false
    else if |ts| == 1 then DerivesFromIService(h, RemoveSharedPtr(ts[0]))
    else
      var first, rest := ValidateArg(h, ts[..1]), ValidateArg(h, ts[1..]);
      assert forall i :: 1 <= i < |ts| ==> ts[i] == ts[1..][i - 1];
      first && rest
  }

  /** validate_arg_tuple<IService, std::tuple<ts...>>(); a Create without parameters is rejected. */
  function ValidateArgTuple(h: Hierarchy, tuple: seq<Ty>): (ok: bool)
    ensures ok <==> tuple != [] && forall i :: 0 <= i < |tuple| ==> DerivesFromIService(h, RemoveSharedPtr(tuple[i]))
  {
    ValidateArg(h, tuple)
  }

  /**
   interface_to_iid_tuple<tuple>(): the __uuidof of every element as written,
   wrapper included.
   */
  function InterfaceToIidTuple(tuple: seq<Ty>): (r: seq<Iid>)
    ensures |r| == |tuple|
    ensures forall i :: 0 <= i < |tuple| ==> r[i] == Iid(tuple[i])
  {
    if tuple == [] then [] else [Iid(tuple[0])] + InterfaceToIidTuple(tuple[1..])
  }

  /**
   interface_to_service_tuple<types>(resolver, iids): one handle per iid, the
   i-th resolved from the i-th iid and cast to the i-th type without its
   shared_ptr.
   */
  function InterfaceToServiceTuple(types: seq<Ty>, resolver: Iid -> SharedPtr, iids: seq<Iid>): (r: seq<SharedPtr>)
    requires |iids| <= |types|
    ensures |r| == |iids|
    ensures forall i :: 0 <= i < |iids| ==> r[i].obj == resolver(iids[i]).obj
    ensures forall i :: 0 <= i < |iids| ==> r[i].pointee == RemoveSharedPtr(types[i])
  {
    if iids == [] then []
    else [StaticPointerCast(RemoveSharedPtr(types[0]), resolver(iids[0]))]
         + InterfaceToServiceTuple(types[1..], resolver, iids[1..])
  }
}
