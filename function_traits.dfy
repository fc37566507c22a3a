/**
 function_traits<F>: the arity, result type and parameter list of a function
 type, read off its signature. The unqualified specialisation R(Args...) does
 the work; the qualified function types and the pointers to member functions
 inherit from it; every other type hits the primary template, whose
 static_assert rejects it.
 */
module FunctionTraits {
  import opened CppModel
  import opened Wrappers

  datatype RefQualifier = NoRef | LValueRef | RValueRef

  /** The cv-, ref- and exception qualifiers written after a parameter list. */
  datatype Qualifiers = Qualifiers(isConst: bool, isVolatile: bool, ref: RefQualifier, isNoexcept: bool)

  const Unqualified: Qualifiers := Qualifiers(false, false, NoRef, false)

  /** R(Args...), or R(Args..., ...) when `ellipsis` holds. */
  datatype Signature = Signature(result: Ty, params: seq<Ty>, ellipsis: bool)

  /** The argument of function_traits<...>. */
  datatype FunctionLike =
    | FunctionType(sig: Signature, quals: Qualifiers)                    // R(Args...) quals
    | MemberFunctionPointer(cls: Ty, sig: Signature, quals: Qualifiers)  // R (C::*)(Args...) quals
    | NotAFunction(t: Ty)

  /** The members arity, result_type and args_tuple of a complete function_traits. */
  datatype Traits = Traits(arity: nat, resultType: Ty, argsTuple: seq<Ty>)

  /**
   The qualifier sets some specialisation names: none, const, &, const&, && and
   const&&. Nothing matches volatile or noexcept.
   */
  predicate Specialised(q: Qualifiers) {
    !q.isVolatile && !q.isNoexcept
  }

  /** How far a specialisation is from R(Args...) in the inheritance chain. */
  function Distance(f: FunctionLike): nat {
    match f
    case FunctionType(_, q) => if q == Unqualified then 0 else 1
    case MemberFunctionPointer(_, _, _) => 2
    case NotAFunction(_) => 0
  }

  /**
   function_traits<f>, or None when instantiating it fails to compile.
   The specialisations match only a parameter list without C-style ellipsis.
   */
  function TraitsOf(f: FunctionLike): (r: Option<Traits>)
    decreases Distance(f)
    ensures r.Some? <==> !f.NotAFunction? && !f.sig.ellipsis && Specialised(f.quals)
    ensures r.Some? ==> r.value.arity == |f.sig.params|
    ensures r.Some? ==> r.value.argsTuple == f.sig.params
    ensures r.Some? ==> r.value.resultType == f.sig.result
  {
    match f
    case FunctionType(sig, q) =>
      if sig.ellipsis || !Specialised(q) then None
      else if q == Unqualified then Some(Traits(|sig.params|, sig.result, sig.params))
      else TraitsOf(FunctionType(sig, Unqualified))
    case MemberFunctionPointer(_, sig, q) =>
      if sig.ellipsis || !Specialised(q) then None
      else TraitsOf(FunctionType(sig, Unqualified))
    case NotAFunction(_) =>
      None
  }

  /** The const, &, const&, && and const&& function types have the traits of R(Args...). */
  lemma QualifiersIgnored(sig: Signature, q: Qualifiers)
    requires Specialised(q)
    ensures TraitsOf(FunctionType(sig, q)) == TraitsOf(FunctionType(sig, Unqualified))
  {
  }

  /**
   A pointer to a member function of any class, with any specialised
   qualifier, has the traits of R(Args...): the class is dropped and no
   implicit object parameter is counted.
   */
  lemma MemberPointerIgnoresClass(c: Ty, sig: Signature, q: Qualifiers)
    requires Specialised(q)
    ensures TraitsOf(MemberFunctionPointer(c, sig, q)) == TraitsOf(FunctionType(sig, Unqualified))
  {
  }
}
