/** check_var: validates a value against optional constraints and reports the
    first violated one. `None` on a mandatory parameter is reported as
    MissingMandatoryParameter, every other violation as TypeError. */
module Utils {
  import opened Wrappers
  import opened PyValues
  import opened Guards

  /** Why a TypeError was raised: by one of check_var's own guards, or by
      Python while evaluating a guard's operator (`in`, `>`/`<`, `len`). */
  datatype Cause = Rejected | OperatorError

  /** The two exception classes check_var raises. Each carries the display
      name of the parameter; a TypeError also records which guard raised it. */
  datatype VarError =
    | MissingMandatoryParameter(name: string)
    | TypeError(name: string, check: Check, cause: Cause)
  {
    /** The guard that produced this error. */
    function Failed(): Check
    {
      match this
      case MissingMandatoryParameter(_) => NotNone
      case TypeError(_, k, _) => k
    }
  }

  /** Normal return, or the exception raised. */
  datatype Outcome = Ok | Err(error: VarError)

  /** The exception guard `k` raises on `v`: MissingMandatoryParameter for the
      presence guard, otherwise a TypeError whose cause says whether Python
      itself could not evaluate the guard's operator. */
  function ErrorFor(v: Value, k: Check, name: string): VarError
  {
    if k == NotNone then MissingMandatoryParameter(name)
    else TypeError(name, k, if OperatorRaises(v, k) then OperatorError else Rejected)
  }

  /** `var_name or 'object'`: a missing or empty name falls back to 'object'. */
  function DisplayName(varName: Option<string>): (name: string)
    ensures |name| > 0
    ensures varName.Some? && varName.value != "" ==> name == varName.value
    ensures varName.None? || varName.value == "" ==> name == "object"
  {
    if varName.Some? && varName.value != "" then varName.value else "object"
  }

  /** The type loop: scan `types` in order and stop at the first entry that
      accepts `v`. */
  method MatchTypes(v: Value, types: seq<Ty>) returns (found: bool)
    ensures found <==> AnyMatch(v, types)
  {
    found := false;
    var i := 0;
    while i < |types|
      invariant 0 <= i <= |types|
      invariant !found
      invariant forall j :: 0 <= j < i ==> !Matches(v, types[j])
    {
      if Matches(v, types[i]) {
        found := true;
        return;
      }
      i := i + 1;
    }
  }

  /** `r` is what guard `k` alone yields on `v`: Ok when the guard is not
      violated, otherwise that guard's exception. */
  predicate GuardReport(v: Value, c: Constraints, name: string, k: Check, r: Outcome)
  {
    && (r.Ok? <==> !Violates(v, c, k))
    && (r.Err? ==> r.error == ErrorFor(v, k, name))
  }

  /** `r` reports the first guard with rank in [lo, hi) that `v` violates,
      with that guard's exception, or is Ok when none of them is violated. */
  predicate ReportsFirst(v: Value, c: Constraints, name: string, lo: nat, hi: nat, r: Outcome)
  {
    && (r.Ok? <==> forall k: Check :: lo <= Rank(k) < hi ==> !Violates(v, c, k))
    && (r.Err? ==> lo <= Rank(r.error.Failed()) < hi && Violates(v, c, r.error.Failed()))
    && (r.Err? ==> forall k: Check :: lo <= Rank(k) < Rank(r.error.Failed()) ==> !Violates(v, c, k))
    && (r.Err? ==> r.error == ErrorFor(v, r.error.Failed(), name))
  }

  /** The allowed_values block. */
  function AllowedGuard(v: Value, c: Constraints, name: string): (r: Outcome)
    requires v != VNone
    ensures GuardReport(v, c, name, AllowedValues, r)
  {
    if c.allowedValues.Some? && !IsHashable(v) then
      Err(TypeError(name, AllowedValues, OperatorError))
    else if c.allowedValues.Some? && v !in c.allowedValues.value then
      Err(TypeError(name, AllowedValues, Rejected))
    else
      Ok
  }

  /** The min_value block. */
  function MinValueGuard(v: Value, c: Constraints, name: string): (r: Outcome)
    requires v != VNone
    ensures GuardReport(v, c, name, MinValue, r)
  {
    if c.minValue.Some? && !v.VInt? then
      Err(TypeError(name, MinValue, OperatorError))
    else if c.minValue.Some? && !(if c.minStrict then v.i > c.minValue.value else v.i >= c.minValue.value) then
      Err(TypeError(name, MinValue, Rejected))
    else
      Ok
  }

  /** The max_value block. */
  function MaxValueGuard(v: Value, c: Constraints, name: string): (r: Outcome)
    requires v != VNone
    ensures GuardReport(v, c, name, MaxValue, r)
  {
    if c.maxValue.Some? && !v.VInt? then
      Err(TypeError(name, MaxValue, OperatorError))
    else if c.maxValue.Some? && !(if c.maxStrict then v.i < c.maxValue.value else v.i <= c.maxValue.value) then
      Err(TypeError(name, MaxValue, Rejected))
    else
      Ok
  }

  /** The min_len block. */
  function MinLenGuard(v: Value, c: Constraints, name: string): (r: Outcome)
    requires v != VNone
    ensures GuardReport(v, c, name, MinLen, r)
  {
    if c.minLen.Some? && !IsSized(v) then
      Err(TypeError(name, MinLen, OperatorError))
    else if c.minLen.Some? && !(if c.minLenStrict then Len(v) > c.minLen.value else Len(v) >= c.minLen.value) then
      Err(TypeError(name, MinLen, Rejected))
    else
      Ok
  }

  /** The max_len block. */
  function MaxLenGuard(v: Value, c: Constraints, name: string): (r: Outcome)
    requires v != VNone
    ensures GuardReport(v, c, name, MaxLen, r)
  {
    if c.maxLen.Some? && !IsSized(v) then
      Err(TypeError(name, MaxLen, OperatorError))
    else if c.maxLen.Some? && !(if c.maxLenStrict then Len(v) < c.maxLen.value else Len(v) <= c.maxLen.value) then
      Err(TypeError(name, MaxLen, Rejected))
    else
      Ok
  }

  /** The `if var is not None` block: allowed values, min and max value, min
      and max length, each evaluated only when the previous ones passed. */
  function PresentChecks(v: Value, c: Constraints, name: string): (r: Outcome)
    requires v != VNone
    ensures ReportsFirst(v, c, name, 2, 7, r)
  {
    var allowed := AllowedGuard(v, c, name);
    if allowed.Err? then allowed
    else
      var lower := MinValueGuard(v, c, name);
      if lower.Err? then lower
      else
        var upper := MaxValueGuard(v, c, name);
        if upper.Err? then upper
        else
          var shortest := MinLenGuard(v, c, name);
          if shortest.Err? then shortest
          else MaxLenGuard(v, c, name)
  }

  /** check_var(var, var_types, var_name, enforce_not_none, allowed_values,
      min_value, min_strict, max_value, max_strict, min_len, min_len_strict,
      max_len, max_len_strict). The outcome is Ok exactly when no guard is
      violated; otherwise it is the exception of the first violated guard in
      the fixed order, under the parameter's display name. */
  function CheckVar(v: Value, c: Constraints, varName: Option<string>): (r: Outcome)
    ensures r.Ok? <==> forall k: Check :: !Violates(v, c, k)
    ensures r.Err? ==> Violates(v, c, r.error.Failed())
    ensures r.Err? ==> forall k: Check :: Rank(k) < Rank(r.error.Failed()) ==> !Violates(v, c, k)
    ensures r.Err? ==> r.error == ErrorFor(v, r.error.Failed(), DisplayName(varName))
  {
    var name := DisplayName(varName);
    if c.enforceNotNone && v.VNone? then
      assert Violates(v, c, NotNone);
      Err(MissingMandatoryParameter(name))
    else if !v.VNone? && c.varTypes.Some? && !AnyMatch(v, TypeList(c.varTypes.value)) then
      assert Violates(v, c, TypeCheck);
      Err(TypeError(name, TypeCheck, Rejected))
    else if v.VNone? then
      Ok
    else
      PresentChecks(v, c, name)
  }
}
