/** Properties of check_var: presence dominates, an optional None skips
    everything, the type guard, the allowed-values guard, strict versus
    non-strict bounds, and the fixed evaluation order. */
module UtilsProperties {
  import opened Wrappers
  import opened PyValues
  import opened Guards
  import opened Utils

  /** `r` is an error raised by guard `k`. */
  predicate FailsAt(r: Outcome, k: Check)
  {
    r.Err? && r.error.Failed() == k
  }

  /** check_var's outcome is determined guard block by guard block: two
      constraint sets whose blocks agree on `v` give the same outcome. */
  lemma CheckVarCongruence(v: Value, a: Constraints, b: Constraints, varName: Option<string>)
    requires a.enforceNotNone == b.enforceNotNone
    requires a.varTypes.Some? == b.varTypes.Some?
    requires a.varTypes.Some? ==> TypeList(a.varTypes.value) == TypeList(b.varTypes.value)
    requires v != VNone ==> AllowedGuard(v, a, DisplayName(varName)) == AllowedGuard(v, b, DisplayName(varName))
    requires v != VNone ==> MinValueGuard(v, a, DisplayName(varName)) == MinValueGuard(v, b, DisplayName(varName))
    requires v != VNone ==> MaxValueGuard(v, a, DisplayName(varName)) == MaxValueGuard(v, b, DisplayName(varName))
    requires v != VNone ==> MinLenGuard(v, a, DisplayName(varName)) == MinLenGuard(v, b, DisplayName(varName))
    requires v != VNone ==> MaxLenGuard(v, a, DisplayName(varName)) == MaxLenGuard(v, b, DisplayName(varName))
    ensures CheckVar(v, a, varName) == CheckVar(v, b, varName)
  {
    if v != VNone {
      var name := DisplayName(varName);
      assert PresentChecks(v, a, name) == PresentChecks(v, b, name);
    }
  }

  /** A None value on a mandatory parameter is reported as missing, whatever
      the other constraints; and a missing-parameter error arises only then. */
  lemma MissingIffMandatoryNone(v: Value, c: Constraints, varName: Option<string>)
    ensures CheckVar(v, c, varName) == Err(MissingMandatoryParameter(DisplayName(varName)))
            <==> c.enforceNotNone && v == VNone
    ensures CheckVar(v, c, varName).Err? && CheckVar(v, c, varName).error.MissingMandatoryParameter?
            ==> c.enforceNotNone && v == VNone
  {
  }

  /** With enforce_not_none off, None passes: no other guard looks at it. */
  lemma OptionalNoneAccepted(c: Constraints, varName: Option<string>)
    requires !c.enforceNotNone
    ensures CheckVar(VNone, c, varName) == Ok
  {
  }

  /** The type guard fails exactly when no listed type accepts the value. */
  lemma TypeGuardIff(v: Value, c: Constraints, varName: Option<string>)
    requires v != VNone && c.varTypes.Some?
    ensures CheckVar(v, c, varName) == Err(TypeError(DisplayName(varName), TypeCheck, Rejected))
            <==> !(exists j :: 0 <= j < |TypeList(c.varTypes.value)| && Matches(v, TypeList(c.varTypes.value)[j]))
  {
  }

  /** Passing one type is the same as passing the one-element list holding it. */
  lemma SingleTypeIsSingletonList(v: Value, c: Constraints, varName: Option<string>, t: Ty)
    ensures CheckVar(v, c.(varTypes := Some(One(t))), varName)
            == CheckVar(v, c.(varTypes := Some(Many([t]))), varName)
  {
    CheckVarCongruence(v, c.(varTypes := Some(One(t))), c.(varTypes := Some(Many([t]))), varName);
  }

  /** An empty type list rejects every non-None value. */
  lemma EmptyTypeListRejects(v: Value, c: Constraints, varName: Option<string>)
    requires v != VNone && c.varTypes == Some(Many([]))
    ensures CheckVar(v, c, varName) == Err(TypeError(DisplayName(varName), TypeCheck, Rejected))
  {
  }

  /** The Callable pseudo-type accepts exactly the callable values. */
  lemma CallableAcceptsCallables(v: Value, varName: Option<string>)
    requires v != VNone
    ensures CheckVar(v, Unconstrained.(varTypes := Some(One(CallablePseudo))), varName).Ok?
            <==> IsCallable(v)
  {
    assert TypeList(One(CallablePseudo))[0] == CallablePseudo;
  }

  /** An ordinary class accepts exactly its instances. */
  lemma ClassAcceptsInstances(v: Value, cls: PyClass, varName: Option<string>)
    requires v != VNone
    ensures CheckVar(v, Unconstrained.(varTypes := Some(One(Class(cls)))), varName).Ok?
            <==> IsInstance(v, cls)
  {
    assert TypeList(One(Class(cls)))[0] == Class(cls);
  }

  /** Once presence and type pass, a hashable value fails the allowed-values
      guard exactly when it is not a member; a list value makes the
      membership test itself raise. */
  lemma AllowedValuesGuard(v: Value, c: Constraints, varName: Option<string>)
    requires v != VNone && c.allowedValues.Some?
    requires c.varTypes.None? || AnyMatch(v, TypeList(c.varTypes.value))
    ensures IsHashable(v) ==>
              (FailsAt(CheckVar(v, c, varName), AllowedValues) <==> v !in c.allowedValues.value)
    ensures !IsHashable(v) ==>
              CheckVar(v, c, varName) == Err(TypeError(DisplayName(varName), AllowedValues, OperatorError))
  {
  }

  /** An integer equal to a value bound passes iff the bound is non-strict. */
  lemma ValueBoundaryPassesIffNonStrict(m: int, strict: bool, varName: Option<string>)
    ensures CheckVar(VInt(m), Unconstrained.(minValue := Some(m), minStrict := strict), varName).Ok? <==> !strict
    ensures CheckVar(VInt(m), Unconstrained.(maxValue := Some(m), maxStrict := strict), varName).Ok? <==> !strict
  {
  }

  /** A string or list whose length equals a length bound passes iff the
      bound is non-strict. */
  lemma LengthBoundaryPassesIffNonStrict(v: Value, strict: bool, varName: Option<string>)
    requires IsSized(v)
    ensures CheckVar(v, Unconstrained.(minLen := Some(Len(v)), minLenStrict := strict), varName).Ok? <==> !strict
    ensures CheckVar(v, Unconstrained.(maxLen := Some(Len(v)), maxLenStrict := strict), varName).Ok? <==> !strict
  {
  }

  /** On integers a strict lower bound m is the non-strict bound m + 1: the
      outcomes, errors included, are identical. */
  lemma StrictMinValueIsShifted(v: Value, c: Constraints, varName: Option<string>, m: int)
    ensures CheckVar(v, c.(minValue := Some(m), minStrict := true), varName)
            == CheckVar(v, c.(minValue := Some(m + 1), minStrict := false), varName)
  {
    CheckVarCongruence(v, c.(minValue := Some(m), minStrict := true),
                       c.(minValue := Some(m + 1), minStrict := false), varName);
  }

  /** A strict upper bound m is the non-strict bound m - 1. */
  lemma StrictMaxValueIsShifted(v: Value, c: Constraints, varName: Option<string>, m: int)
    ensures CheckVar(v, c.(maxValue := Some(m), maxStrict := true), varName)
            == CheckVar(v, c.(maxValue := Some(m - 1), maxStrict := false), varName)
  {
    CheckVarCongruence(v, c.(maxValue := Some(m), maxStrict := true),
                       c.(maxValue := Some(m - 1), maxStrict := false), varName);
  }

  /** A strict minimum length m is the non-strict minimum length m + 1. */
  lemma StrictMinLenIsShifted(v: Value, c: Constraints, varName: Option<string>, m: int)
    ensures CheckVar(v, c.(minLen := Some(m), minLenStrict := true), varName)
            == CheckVar(v, c.(minLen := Some(m + 1), minLenStrict := false), varName)
  {
    CheckVarCongruence(v, c.(minLen := Some(m), minLenStrict := true),
                       c.(minLen := Some(m + 1), minLenStrict := false), varName);
  }

  /** A strict maximum length m is the non-strict maximum length m - 1. */
  lemma StrictMaxLenIsShifted(v: Value, c: Constraints, varName: Option<string>, m: int)
    ensures CheckVar(v, c.(maxLen := Some(m), maxLenStrict := true), varName)
            == CheckVar(v, c.(maxLen := Some(m - 1), maxLenStrict := false), varName)
  {
    CheckVarCongruence(v, c.(maxLen := Some(m), maxLenStrict := true),
                       c.(maxLen := Some(m - 1), maxLenStrict := false), varName);
  }

  /** Loosening constraints never rejects more: if every guard that `b`
      violates on `v` is also violated under `a`, then `b` accepts `v`
      whenever `a` does. */
  lemma LooserAcceptsMore(v: Value, a: Constraints, b: Constraints, varName: Option<string>)
    requires forall k: Check :: Violates(v, b, k) ==> Violates(v, a, k)
    ensures CheckVar(v, a, varName).Ok? ==> CheckVar(v, b, varName).Ok?
  {
  }

  /** Making the lower value bound strict never lets more values through. */
  lemma StrictMinValueAcceptsLess(v: Value, c: Constraints, varName: Option<string>)
    ensures CheckVar(v, c.(minStrict := true), varName).Ok? ==> CheckVar(v, c.(minStrict := false), varName).Ok?
  {
    LooserAcceptsMore(v, c.(minStrict := true), c.(minStrict := false), varName);
  }

  /** Making the upper value bound strict never lets more values through. */
  lemma StrictMaxValueAcceptsLess(v: Value, c: Constraints, varName: Option<string>)
    ensures CheckVar(v, c.(maxStrict := true), varName).Ok? ==> CheckVar(v, c.(maxStrict := false), varName).Ok?
  {
    LooserAcceptsMore(v, c.(maxStrict := true), c.(maxStrict := false), varName);
  }

  /** Making the minimum length strict never lets more values through. */
  lemma StrictMinLenAcceptsLess(v: Value, c: Constraints, varName: Option<string>)
    ensures CheckVar(v, c.(minLenStrict := true), varName).Ok? ==> CheckVar(v, c.(minLenStrict := false), varName).Ok?
  {
    LooserAcceptsMore(v, c.(minLenStrict := true), c.(minLenStrict := false), varName);
  }

  /** Making the maximum length strict never lets more values through. */
  lemma StrictMaxLenAcceptsLess(v: Value, c: Constraints, varName: Option<string>)
    ensures CheckVar(v, c.(maxLenStrict := true), varName).Ok? ==> CheckVar(v, c.(maxLenStrict := false), varName).Ok?
  {
    LooserAcceptsMore(v, c.(maxLenStrict := true), c.(maxLenStrict := false), varName);
  }

  /** The defaults of the signature accept exactly the non-None values. */
  lemma DefaultsRequireOnlyPresence(v: Value, varName: Option<string>)
    ensures CheckVar(v, Defaults, varName).Ok? <==> v != VNone
  {
  }

  /** With no constraint given, every value passes, None included. */
  lemma UnconstrainedAcceptsAll(v: Value, varName: Option<string>)
    ensures CheckVar(v, Unconstrained, varName) == Ok
  {
  }

  /** FirstViolated finds the earliest violated guard of a list, and finds
      nothing only when no guard of the list is violated. */
  lemma {:induction false} FirstViolatedIsEarliest(v: Value, c: Constraints, ks: seq<Check>)
    ensures FirstViolated(v, c, ks).None? <==> forall i :: 0 <= i < |ks| ==> !Violates(v, c, ks[i])
    ensures FirstViolated(v, c, ks).Some? ==>
              exists i :: 0 <= i < |ks| && ks[i] == FirstViolated(v, c, ks).value
                          && Violates(v, c, ks[i])
                          && forall j :: 0 <= j < i ==> !Violates(v, c, ks[j])
    decreases |ks|
  {
    if |ks| > 0 && !Violates(v, c, ks[0]) {
      FirstViolatedIsEarliest(v, c, ks[1..]);
      if FirstViolated(v, c, ks[1..]).Some? {
        var i :| 0 <= i < |ks[1..]| && ks[1..][i] == FirstViolated(v, c, ks[1..]).value
                 && Violates(v, c, ks[1..][i])
                 && forall j :: 0 <= j < i ==> !Violates(v, c, ks[1..][j]);
        assert ks[i + 1] == ks[1..][i];
        assert forall j :: 1 <= j < i + 1 ==> ks[j] == ks[1..][j - 1];
      } else {
        assert forall i :: 1 <= i < |ks| ==> ks[i] == ks[1..][i - 1];
      }
    }
  }

  /** `Order` lists every guard exactly once, at the index given by its rank. */
  lemma OrderFollowsRank(k: Check)
    ensures |Order| == 7
    ensures Order[Rank(k)] == k
    ensures forall i :: 0 <= i < |Order| ==> Rank(Order[i]) == i
  {
  }

  /** Scanning `Order` finds the violated guard of least rank. */
  lemma FirstViolatedInOrderHasLeastRank(v: Value, c: Constraints)
    ensures FirstViolated(v, c, Order).None? <==> forall k: Check :: !Violates(v, c, k)
    ensures FirstViolated(v, c, Order).Some? ==>
              && Violates(v, c, FirstViolated(v, c, Order).value)
              && forall k: Check :: Rank(k) < Rank(FirstViolated(v, c, Order).value) ==> !Violates(v, c, k)
  {
    FirstViolatedIsEarliest(v, c, Order);
    forall k: Check ensures Order[Rank(k)] == k && Rank(k) < |Order| {
      OrderFollowsRank(k);
    }
    var f := FirstViolated(v, c, Order);
    if f.Some? {
      var i :| 0 <= i < |Order| && Order[i] == f.value && Violates(v, c, Order[i])
               && forall j :: 0 <= j < i ==> !Violates(v, c, Order[j]);
      OrderFollowsRank(f.value);
      assert Rank(f.value) == i;
      assert Violates(v, c, f.value);
    } else {
      forall k: Check ensures !Violates(v, c, k) {
        assert Order[Rank(k)] == k;
      }
    }
  }

  /** Two guards of equal rank are the same guard. */
  lemma RankInjective(k: Check, k': Check)
    requires Rank(k) == Rank(k')
    ensures k == k'
  {
  }

  /** check_var reports exactly the first violated guard of the fixed order
      missing, type, allowed values, min value, max value, min length, max
      length, and returns normally when no guard is violated. */
  lemma CheckVarFollowsOrder(v: Value, c: Constraints, varName: Option<string>)
    ensures CheckVar(v, c, varName).Ok? <==> FirstViolated(v, c, Order).None?
    ensures CheckVar(v, c, varName).Err? ==>
              FirstViolated(v, c, Order) == Some(CheckVar(v, c, varName).error.Failed())
  {
    FirstViolatedInOrderHasLeastRank(v, c);
    var r := CheckVar(v, c, varName);
    if r.Err? {
      var f := FirstViolated(v, c, Order).value;
      RankInjective(f, r.error.Failed());
    }
  }

  /** Later guards are never consulted once one fails: changing only the
      constraints of later guards leaves the error unchanged. */
  lemma LaterConstraintsIgnored(v: Value, c: Constraints, c': Constraints, varName: Option<string>)
    requires CheckVar(v, c, varName).Err?
    requires forall k: Check :: Rank(k) <= Rank(CheckVar(v, c, varName).error.Failed()) ==>
               (Violates(v, c', k) <==> Violates(v, c, k))
    ensures CheckVar(v, c', varName) == CheckVar(v, c, varName)
  {
  }

  /** Presence and type examples: None on a mandatory parameter is missing,
      5 is not a str but is an int. */
  lemma PresenceAndTypeExamples(n: Option<string>)
    ensures CheckVar(VNone, Defaults, n) == Err(MissingMandatoryParameter(DisplayName(n)))
    ensures FailsAt(CheckVar(VInt(5), Defaults.(varTypes := Some(Many([Class(StrClass)]))), n), TypeCheck)
    ensures CheckVar(VInt(5), Defaults.(varTypes := Some(Many([Class(IntClass)]))), n) == Ok
  {
    assert TypeList(Many([Class(IntClass)]))[0] == Class(IntClass);
  }

  /** Allowed-values examples: 7 is not in {1, 2, 3}, 2 is. */
  lemma AllowedValuesExamples(n: Option<string>)
    ensures FailsAt(CheckVar(VInt(7), Defaults.(allowedValues := Some({VInt(1), VInt(2), VInt(3)})), n), AllowedValues)
    ensures CheckVar(VInt(2), Defaults.(allowedValues := Some({VInt(1), VInt(2), VInt(3)})), n) == Ok
  {
  }

  /** Value-bound examples: 5 meets min 5 unless strict, 10 meets max 10
      unless strict. */
  lemma ValueBoundExamples(n: Option<string>)
    ensures CheckVar(VInt(5), Defaults.(minValue := Some(5)), n) == Ok
    ensures FailsAt(CheckVar(VInt(5), Defaults.(minValue := Some(5), minStrict := true), n), MinValue)
    ensures FailsAt(CheckVar(VInt(10), Defaults.(maxValue := Some(10), maxStrict := true), n), MaxValue)
    ensures CheckVar(VInt(10), Defaults.(maxValue := Some(10)), n) == Ok
  {
  }

  /** Length examples: [1, 2] is shorter than 3, [1, 2, 3] is not. */
  lemma LengthExamples(n: Option<string>)
    ensures FailsAt(CheckVar(VList([VInt(1), VInt(2)]), Defaults.(minLen := Some(3)), n), MinLen)
    ensures CheckVar(VList([VInt(1), VInt(2), VInt(3)]), Defaults.(minLen := Some(3)), n) == Ok
  {
  }
}
