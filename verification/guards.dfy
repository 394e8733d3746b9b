/** A declarative account of check_var's constraints: which guards exist, the
    fixed order in which they are evaluated, when a guard applies to a value,
    and what it means for a guard to be violated. The validator itself is in
    module Utils; this module is the reference it is proved against. */
module Guards {
  import opened Wrappers
  import opened PyValues

  /** `var_types` as a caller passes it: one type, or a list of types. */
  datatype TypeSpec = One(t: Ty) | Many(ts: seq<Ty>)

  /** The list of types the type guard scans; a single type stands for the
      one-element list holding it. */
  function TypeList(spec: TypeSpec): seq<Ty>
  {
    match spec
    case One(t) => [t]
    case Many(ts) => ts
  }

  /** The keyword arguments of check_var other than `var` and `var_name`.
      Optional ones are `None` when left at their default. */
  datatype Constraints = Constraints(
    varTypes: Option<TypeSpec>,
    enforceNotNone: bool,
    allowedValues: Option<set<Value>>,
    minValue: Option<int>,
    minStrict: bool,
    maxValue: Option<int>,
    maxStrict: bool,
    minLen: Option<int>,
    minLenStrict: bool,
    maxLen: Option<int>,
    maxLenStrict: bool)

  /** The defaults of check_var's signature: only presence is enforced. */
  const Defaults: Constraints :=
    Constraints(None, true, None, None, false, None, false, None, false, None, false)

  /** No constraint at all, not even presence. */
  const Unconstrained: Constraints := Defaults.(enforceNotNone := false)

  /** The seven guards of check_var. */
  datatype Check = NotNone | TypeCheck | AllowedValues | MinValue | MaxValue | MinLen | MaxLen

  /** Position of a guard in the evaluation order. */
  function Rank(k: Check): nat
  {
    match k
    case NotNone => 0
    case TypeCheck => 1
    case AllowedValues => 2
    case MinValue => 3
    case MaxValue => 4
    case MinLen => 5
    case MaxLen => 6
  }

  /** The guards in evaluation order. */
  const Order: seq<Check> := [NotNone, TypeCheck, AllowedValues, MinValue, MaxValue, MinLen, MaxLen]

  /** A lower bound, strict or not. */
  predicate AtLeast(x: int, bound: int, strict: bool)
  {
    bound < x || (!strict && bound == x)
  }

  /** An upper bound, strict or not. */
  predicate AtMost(x: int, bound: int, strict: bool)
  {
    x < bound || (!strict && x == bound)
  }

  /** Guard `k` is evaluated on `v` when it is reached: its constraint was
      given and, except for the presence guard, `v` is not `None`. */
  predicate Applies(v: Value, c: Constraints, k: Check)
  {
    match k
    case NotNone => c.enforceNotNone
    case TypeCheck => v != VNone && c.varTypes.Some?
    case AllowedValues => v != VNone && c.allowedValues.Some?
    case MinValue => v != VNone && c.minValue.Some?
    case MaxValue => v != VNone && c.maxValue.Some?
    case MinLen => v != VNone && c.minLen.Some?
    case MaxLen => v != VNone && c.maxLen.Some?
  }

  /** Evaluating guard `k` on `v` makes Python itself raise `TypeError`:
      hashing a list for set membership, ordering a non-integer against an
      integer bound, or taking `len` of an unsized value. */
  predicate OperatorRaises(v: Value, k: Check)
  {
    match k
    case AllowedValues => !IsHashable(v)
    case MinValue => !v.VInt?
    case MaxValue => !v.VInt?
    case MinLen => !IsSized(v)
    case MaxLen => !IsSized(v)
    case _ => false
  }

  /** Guard `k` accepts `v`, for a guard that applies and whose operator is defined. */
  predicate Holds(v: Value, c: Constraints, k: Check)
    requires Applies(v, c, k) && !OperatorRaises(v, k)
  {
    match k
    case NotNone => v != VNone
    case TypeCheck => AnyMatch(v, TypeList(c.varTypes.value))
    case AllowedValues => v in c.allowedValues.value
    case MinValue => AtLeast(v.i, c.minValue.value, c.minStrict)
    case MaxValue => AtMost(v.i, c.maxValue.value, c.maxStrict)
    case MinLen => AtLeast(Len(v), c.minLen.value, c.minLenStrict)
    case MaxLen => AtMost(Len(v), c.maxLen.value, c.maxLenStrict)
  }

  /** Guard `k` rejects `v`, either by its own test or because Python cannot
      evaluate that test on `v`. */
  predicate Violates(v: Value, c: Constraints, k: Check)
  {
    Applies(v, c, k) && (OperatorRaises(v, k) || !Holds(v, c, k))
  }

  /** The first guard of `ks` that `v` violates, if any. */
  function FirstViolated(v: Value, c: Constraints, ks: seq<Check>): Option<Check>
  {
    if |ks| == 0 then None
    else if Violates(v, c, ks[0]) then Some(ks[0])
    else FirstViolated(v, c, ks[1..])
  }
}
