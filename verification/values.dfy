/** The part of Python's value universe that check_var inspects: the `None`
    sentinel, integers, strings, lists and function objects, together with the
    classes that `isinstance` tests them against. */
module PyValues {

  /** A Python value. A function object is identified by an opaque number, so
      two distinct functions compare unequal, as Python's identity-based
      equality on functions does. */
  datatype Value =
    | VNone
    | VInt(i: int)
    | VStr(s: string)
    | VList(items: seq<Value>)
    | VFunc(id: nat)

  /** The built-in classes a caller may list in `var_types`. */
  datatype PyClass = IntClass | StrClass | ListClass | FunctionClass | ObjectClass

  /** An entry of `var_types`: an ordinary class, or the `typing.Callable`
      pseudo-type that check_var special-cases and tests with `callable()`. */
  datatype Ty = Class(cls: PyClass) | CallablePseudo

  /** `isinstance(v, cls)`; every value is an instance of `object`. */
  predicate IsInstance(v: Value, cls: PyClass)
  {
    match cls
    case IntClass => v.VInt?
    case StrClass => v.VStr?
    case ListClass => v.VList?
    case FunctionClass => v.VFunc?
    case ObjectClass => true
  }

  /** `callable(v)`: among the modelled values only function objects can be called. */
  predicate IsCallable(v: Value)
  {
    v.VFunc?
  }

  /** Whether `v in some_set` can hash `v`; Python lists are unhashable. */
  predicate IsHashable(v: Value)
  {
    !v.VList?
  }

  /** Whether `len(v)` is defined. */
  predicate IsSized(v: Value)
  {
    v.VStr? || v.VList?
  }

  /** `len(v)` for a sized value. */
  function Len(v: Value): nat
    requires IsSized(v)
  {
    if v.VStr? then |v.s| else |v.items|
  }

  /** One step of check_var's type loop: the Callable pseudo-type is tested
      with `callable()`, every other entry with `isinstance()`. */
  predicate Matches(v: Value, t: Ty)
  {
    match t
    case CallablePseudo => IsCallable(v)
    case Class(cls) => IsInstance(v, cls)
  }

  /** Some entry of `types` accepts `v`. */
  predicate AnyMatch(v: Value, types: seq<Ty>)
  {
    exists j :: 0 <= j < |types| && Matches(v, types[j])
  }
}
