# check_var: a Dafny model of envswitch's parameter validator

This project models `check_var` from `envswitch/utils.py` together with the
`MissingMandatoryParameterException` it raises. `check_var` checks one value
against a set of optional constraints and raises on the first one it
violates. The constraints are, in evaluation order:

1. not `None` (`enforce_not_none`, on by default);
2. membership in one type or a list of types, where `typing.Callable` is
   special-cased and tested with `callable()`;
3. membership in `allowed_values`;
4. `min_value` and then `max_value`, each strict or not;
5. `min_len` and then `max_len` on `len(var)`, each strict or not.

A `None` value on a mandatory parameter raises
`MissingMandatoryParameterException`. Every other violation raises `TypeError`.
A `None` value on an optional parameter skips every other guard. When nothing
fails, the call returns normally. It never changes the value. The model's
functions are pure, so this holds by construction.

## Layout

- `wrappers.dfy`, module `Wrappers`: `Option`, used for every keyword argument
  whose default is `None`.
- `values.dfy`, module `PyValues`: the Python values the validator inspects.
  These are `None`, int, str, list and function objects. The module also
  defines the classes `int`, `str`, `list`, `function` and `object`, the
  `Callable` pseudo-type, and `isinstance`, `callable`, hashability and `len`.
- `guards.dfy`, module `Guards`: the reference side, with no reference to how
  check_var is coded. It defines the constraint record, the seven guards, their
  rank and fixed `Order`, and when a guard applies. It also defines when Python
  itself cannot evaluate a guard's operator, and when a guard is violated. A
  recursive `FirstViolated` scans a list of guards.
- `utils.dfy`, module `Utils`: the validator. It has the two exception
  classes, the `var_name or 'object'` defaulting, and the type-matching loop.
  There is one function per guard block and `CheckVar` itself, written as the
  same chain of `if` blocks as the source. In `CheckVar` the type block tests
  the predicate `AnyMatch` (some listed entry matches); the method
  `MatchTypes` is the source's scanning loop with early exit, proved to
  compute exactly that predicate.
- `properties.dfy`, module `UtilsProperties`: lemmas relating `CheckVar` to the
  reference side and to itself.

Design decisions:
- The outcome is `Ok` or `Err(VarError)`. `VarError` is either
  `MissingMandatoryParameter(name)` or `TypeError(name, check, cause)`. So the
  source's split between its two exception classes stays visible, and the
  guard that raised is recorded.
- Three of the source's operators raise Python's own `TypeError` for some
  values: `var not in allowed_values` when the value is an unhashable list,
  `var > min_value` and the other comparisons when the value is not a number,
  and `len(var)` when the value has no length. These are modelled as a
  `TypeError` with cause `OperatorError`, raised by the guard that evaluates
  that operator. They are not excluded by preconditions, because an earlier
  guard may fail first. As a result `CheckVar` has no precondition at all.
- The strictness flags mean what the code does: `min_strict` selects `>`,
  otherwise `>=`, and likewise for the other three flags.

## Model

| member | source | states |
|---|---|---|
| Utils.DisplayName | envswitch/utils.py:75 | the name used in errors is never empty; it is the caller's name when that is non-empty, and 'object' otherwise |
| Utils.MatchTypes | envswitch/utils.py:86-96 | the loop that scans the types and stops at the first match reports a match iff some listed type accepts the value |
| Utils.AllowedGuard | envswitch/utils.py:102-105 | the allowed-values block is Ok iff that guard is not violated; otherwise it raises TypeError, with cause OperatorError exactly for an unhashable value |
| Utils.MinValueGuard | envswitch/utils.py:107-116 | the min-value block is Ok iff the strict or non-strict lower bound holds; otherwise it raises that guard's TypeError, with cause OperatorError for a non-integer value |
| Utils.MaxValueGuard | envswitch/utils.py:118-127 | the max-value block is Ok iff the strict or non-strict upper bound holds; otherwise it raises that guard's TypeError |
| Utils.MinLenGuard | envswitch/utils.py:129-138 | the min-length block is Ok iff the lower bound holds for len(var); otherwise it raises that guard's TypeError, with cause OperatorError for an unsized value |
| Utils.MaxLenGuard | envswitch/utils.py:140-149 | the max-length block is Ok iff the upper bound holds for len(var); otherwise it raises that guard's TypeError |
| Utils.PresentChecks | envswitch/utils.py:101-149 | for a non-None value, the blocks report the first violated guard among allowed, min, max, min length and max length, or Ok if none is violated |
| Utils.CheckVar | envswitch/utils.py:52-149 | Ok iff no guard is violated; otherwise the raised error belongs to a violated guard, every guard of lower rank passes, and the error is that guard's exception under the display name |
| UtilsProperties.MissingIffMandatoryNone | envswitch/utils.py:47-79 | the missing-parameter error arises exactly when the value is None and enforce_not_none is set, whatever the other constraints |
| UtilsProperties.OptionalNoneAccepted | envswitch/utils.py:77-101 | with enforce_not_none off, None passes, whatever the other constraints |
| UtilsProperties.TypeGuardIff | envswitch/utils.py:81-99 | for a non-None value with types given, the result is the type guard's TypeError iff no listed type matches |
| UtilsProperties.SingleTypeIsSingletonList | envswitch/utils.py:83-84 | passing one type gives the same outcome as passing the one-element list holding it |
| UtilsProperties.EmptyTypeListRejects | envswitch/utils.py:86-99 | an empty list of types rejects every non-None value with the type guard's TypeError |
| UtilsProperties.CallableAcceptsCallables | envswitch/utils.py:89-92 | the Callable pseudo-type accepts a non-None value iff it is callable |
| UtilsProperties.ClassAcceptsInstances | envswitch/utils.py:93-96 | an ordinary class accepts a non-None value iff the value is an instance of it |
| UtilsProperties.AllowedValuesGuard | envswitch/utils.py:101-105 | once presence and type pass, a hashable value fails at the allowed-values guard iff it is not a member; a list value makes the membership test raise |
| UtilsProperties.ValueBoundaryPassesIffNonStrict | envswitch/utils.py:107-127 | an integer equal to the min or max value bound passes iff the bound is non-strict |
| UtilsProperties.LengthBoundaryPassesIffNonStrict | envswitch/utils.py:129-149 | a string or list whose length equals the min or max length bound passes iff the bound is non-strict |
| UtilsProperties.StrictMinValueIsShifted | envswitch/utils.py:109-116 | a strict lower bound m gives the same outcome, error included, as a non-strict bound m + 1 |
| UtilsProperties.StrictMaxValueIsShifted | envswitch/utils.py:120-127 | a strict upper bound m gives the same outcome as a non-strict bound m - 1 |
| UtilsProperties.StrictMinLenIsShifted | envswitch/utils.py:131-138 | a strict minimum length m gives the same outcome as a non-strict minimum length m + 1 |
| UtilsProperties.StrictMaxLenIsShifted | envswitch/utils.py:142-149 | a strict maximum length m gives the same outcome as a non-strict maximum length m - 1 |
| UtilsProperties.LooserAcceptsMore | envswitch/utils.py:77-149 | if every guard violated under b is also violated under a, then b accepts every value a accepts |
| UtilsProperties.StrictMinValueAcceptsLess | envswitch/utils.py:109-116 | a value accepted under a strict lower bound is accepted under the same non-strict bound |
| UtilsProperties.StrictMaxValueAcceptsLess | envswitch/utils.py:120-127 | a value accepted under a strict upper bound is accepted under the same non-strict bound |
| UtilsProperties.StrictMinLenAcceptsLess | envswitch/utils.py:131-138 | a value accepted under a strict minimum length is accepted under the same non-strict one |
| UtilsProperties.StrictMaxLenAcceptsLess | envswitch/utils.py:142-149 | a value accepted under a strict maximum length is accepted under the same non-strict one |
| UtilsProperties.DefaultsRequireOnlyPresence | envswitch/utils.py:52-55 | with the signature's defaults, check_var accepts exactly the non-None values |
| UtilsProperties.UnconstrainedAcceptsAll | envswitch/utils.py:77-149 | with no constraint and enforce_not_none off, every value passes, None included |
| UtilsProperties.FirstViolatedIsEarliest | envswitch/utils.py:77-149 | the reference scan finds nothing iff no guard of the list is violated, and otherwise finds a violated guard with no violated guard before it |
| UtilsProperties.CheckVarFollowsOrder | envswitch/utils.py:77-149 | check_var returns normally iff the scan of the fixed order finds no violated guard, and otherwise raises for exactly the guard that scan finds |
| UtilsProperties.LaterConstraintsIgnored | envswitch/utils.py:77-149 | once a guard fails, changing the constraints of later guards leaves the error unchanged |
| UtilsProperties.PresenceAndTypeExamples | envswitch/utils.py:77-99 | None with the defaults is missing; 5 fails a [str] type check and passes an [int] one |
| UtilsProperties.AllowedValuesExamples | envswitch/utils.py:102-105 | 7 fails allowed values {1, 2, 3}; 2 passes |
| UtilsProperties.ValueBoundExamples | envswitch/utils.py:107-127 | 5 passes min 5 and fails strict min 5; 10 fails strict max 10 and passes max 10 |
| UtilsProperties.LengthExamples | envswitch/utils.py:129-138 | [1, 2] fails min length 3; [1, 2, 3] passes |

## Left out

- `get_version` (envswitch/utils.py:10-29): reads a file beside the executable, queries installed package metadata, and falls back to setuptools_scm. All of this is I/O and foreign library calls.
- `get_resource_path` (envswitch/utils.py:32-45): branches on the frozen-executable flag and calls path and package-resource libraries. This is environment glue.
- Error message text: the strings built with `str()` of types, sets and values are not modelled. An error carries only the display name, the guard that raised and the cause.
- Bounds other than integers: the source compares with whatever `min_value`/`max_value` the caller passes, for example strings against strings. The model's value bounds are integers, and a non-integer value against them raises like Python's own comparison.
- The full Python type system: floats, tuples, dicts, classes as values and objects with `__call__` are not modelled. `bool` as a subclass of `int`, a tuple of types passed to `isinstance`, and equality across types (`1 == 1.0 == True`) are not modelled either.
- `allowed_values` given as a container other than a set: the model uses a set. Its hashing rule (a list value is unhashable) follows a set.
- Utils.ErrorFor: a TypeError with cause OperatorError stands for the exception Python raises itself inside `in`, `>`/`<` or `len()`. Its real message does not name the parameter; the display name it carries in the model is the model's own addition.
- `var_name` values other than strings: `var_name or 'object'` is modelled for a missing or empty string only.
