# Duplicate-value validation rule

A Dafny model of `DuplicateCheckValidator<T, TValue>`, the custom FluentValidation property
validator of HamedStack.FluentValidation. The validator is configured once with a
caller-supplied duplicate predicate (`TValue -> bool`), an `ignoreSelf` flag, an optional
self-value selector (`T -> TValue`) and an optional error message. For each property value it
then answers valid (not a duplicate) or invalid (a duplicate). When self-exemption is enabled
and a selector is configured, a value equal to the instance's own value is valid without
consulting the predicate. This makes the rule safe to use when a record is updated.

Files:

- `wrappers.dfy`: module `Wrappers`. `Option` stands for a C# `null`, and `Result` for a
  constructor that may throw.
- `duplicate_check.dfy`: module `DuplicateCheck`. The validator is a datatype holding its four
  readonly fields. The module also has the constructor (`Construct`), `GetDefaultMessageTemplate`,
  the `Name` constant (`ValidatorName`), the decision `IsValid`, and a traced version of the
  decision (`EvaluateTraced`) that records every value passed to the predicate. Lemmas state
  each branch of the decision and how self-exemption relates to the plain predicate.
- `scenarios.dfy`: module `DuplicateCheckScenarios`. Concrete uses: a reserved user name, and
  e-mail addresses checked against the addresses already taken.

Modelling choices:

- The validator's fields are assigned once and never change, so the validator is a value
  (a datatype), not a class.
- `EqualityComparer<TValue>.Default.Equals` is Dafny equality on a `TValue(==)` type.
- The validation context is reduced to the instance it carries (`context.InstanceToValidate`).
- The caller's predicate and selector are total, pure Dafny functions. A value of `Validator`
  exists only after construction has succeeded, so its predicate is never null.

## Model

| member | source | states |
|---|---|---|
| `DuplicateCheck.Construct` | HamedStack.FluentValidation/DuplicateCheckValidator.cs:25-35 | construction fails exactly when the predicate is null, and then with `ArgumentNull("duplicateCheckFunc")`; otherwise the predicate, flag and selector are stored as given, and the message is the caller's or the default `{PropertyName} already exists.` |
| `DuplicateCheck.NullPredicateRejected` | HamedStack.FluentValidation/DuplicateCheckValidator.cs:31 | a null predicate yields the `ArgumentNullException` result and no validator, whatever the other arguments |
| `DuplicateCheck.MessageTemplateFallback` | HamedStack.FluentValidation/DuplicateCheckValidator.cs:34-41 | for every error code, the template reported by a constructed validator is the supplied message when one is given and the default literal otherwise |
| `DuplicateCheck.GetDefaultMessageTemplate` | HamedStack.FluentValidation/DuplicateCheckValidator.cs:38-41 | returns the stored template whatever the error code; its partner `MessageTemplateFallback` states which template a constructed validator stores and reports |
| `DuplicateCheck.IsValid` | HamedStack.FluentValidation/DuplicateCheckValidator.cs:47-58 | soundness: an invalid result implies the predicate reported the value; a self-exempt value is always valid |
| `DuplicateCheck.IsValidIffNotFlagged` | HamedStack.FluentValidation/DuplicateCheckValidator.cs:49-57 | the result is invalid exactly when the predicate reports the value and the self-exemption does not apply (both directions) |
| `DuplicateCheck.PredicateDecidesWithoutIgnoreSelf` | HamedStack.FluentValidation/DuplicateCheckValidator.cs:49 | with `ignoreSelf` off the result is the negated predicate, for every choice of selector |
| `DuplicateCheck.PredicateDecidesWithoutSelector` | HamedStack.FluentValidation/DuplicateCheckValidator.cs:49 | with no selector the result is the negated predicate even when `ignoreSelf` is on, the same as with the flag off |
| `DuplicateCheck.SelfMatchIsValid` | HamedStack.FluentValidation/DuplicateCheckValidator.cs:51-55 | when the flag is on, a selector is present and the instance's own value equals the candidate, the result is valid under every possible predicate |
| `DuplicateCheck.SelfMismatchDefersToPredicate` | HamedStack.FluentValidation/DuplicateCheckValidator.cs:51-57 | when the flag is on, a selector is present and the instance's own value differs from the candidate, the result is the negated predicate |
| `DuplicateCheck.NotReportedIsAlwaysValid` | HamedStack.FluentValidation/DuplicateCheckValidator.cs:49-57 | a value the predicate does not report is valid under every flag, selector, message and instance |
| `DuplicateCheck.DefaultsApplyPredicate` | HamedStack.FluentValidation/DuplicateCheckValidator.cs:26-34 | built with the default arguments, construction succeeds, carries the default message and rejects exactly what the predicate reports |
| `DuplicateCheck.EvaluateTraced` | HamedStack.FluentValidation/DuplicateCheckValidator.cs:47-58 | returns the same verdict as `IsValid`; the predicate is called at most once, only on the candidate value, and not at all exactly when the self-exemption applies |
| `DuplicateCheck.ExemptionObservableAt` | HamedStack.FluentValidation/DuplicateCheckValidator.cs:49-57 | for one instance, enabling self-exemption changes the verdict for some candidate if and only if the predicate reports the instance's own value, and that value is the only candidate it can change |
| `DuplicateCheck.ExemptionInertIff` | HamedStack.FluentValidation/DuplicateCheckValidator.cs:49-57 | self-exemption behaves identically to no exemption on all instances and candidates if and only if the predicate reports no instance's own value |
| `DuplicateCheckScenarios.ReservedNameRejected` | HamedStack.FluentValidation/DuplicateCheckValidator.cs:34-49 | with predicate `v == "admin"` and default arguments, "admin" is invalid and the reported template is `{PropertyName} already exists.` |
| `DuplicateCheckScenarios.OtherNameAccepted` | HamedStack.FluentValidation/DuplicateCheckValidator.cs:49 | with the same rule, "alice" is valid |
| `DuplicateCheckScenarios.OwnEmailAccepted` | HamedStack.FluentValidation/DuplicateCheckValidator.cs:51-55 | a record that keeps its own address is valid, although the address is among those taken |
| `DuplicateCheckScenarios.TakenEmailRejected` | HamedStack.FluentValidation/DuplicateCheckValidator.cs:51-57 | a record that switches to an address another record holds is invalid |
| `DuplicateCheckScenarios.CustomTemplateKept` | HamedStack.FluentValidation/DuplicateCheckValidator.cs:34-41 | a custom message is reported unchanged as the template, for any error code |

`Name` (`DuplicateCheckValidator.cs:44`) is the constant `DuplicateCheck.ValidatorName`, and the
default template is the constant `DuplicateCheck.DefaultErrorMessage`. Both are constants, not
members with contracts.

## Left out

- `FluentValidationExtensions.DuplicateCheck` (`FluentValidationExtensions.cs`): it only hands a
  validator built with default arguments to FluentValidation's `SetValidator`, which is library
  code. The validator it builds is the one `DefaultsApplyPredicate` describes.
- The `PropertyValidator` base class, `ValidationContext<T>`, and how FluentValidation calls
  `IsValid`: these are library code. The context is reduced to the instance under validation.
- Substitution of the `{PropertyName}` placeholder: FluentValidation's message formatter does
  it, not this validator. Templates are modelled as plain strings.
- Custom or overridden equality on `TValue`: the model uses plain value equality.
- Side effects, exceptions and non-termination of the caller's predicate or selector (for
  example a database lookup): both are total pure functions. `EvaluateTraced` calls the (pure)
  predicate and records every value passed to it; the call's side effects are not modelled.
- A null selector result or a null candidate value: these are ordinary values of `TValue`
  compared by equality.
