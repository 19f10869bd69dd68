/**
 * The duplicate-value rule of `DuplicateCheckValidator<T, TValue>`.
 *
 * `T` is the type of the object being validated, `TValue` the type of the
 * property under validation. Value equality on `TValue` stands in for
 * `EqualityComparer<TValue>.Default`. The caller's duplicate predicate and
 * self-value selector are total Dafny function values; a C# `null` for
 * either is `None`.
 */
module DuplicateCheck {
  import opened Wrappers

  /** The message template used when the caller supplies none. */
  const DefaultErrorMessage: string := "{PropertyName} already exists."

  /** The validator's `Name` property. */
  const ValidatorName: string := "DuplicateCheckValidator"

  /** The exception the constructor throws, with the name of the offending parameter. */
  datatype ConstructionError = ArgumentNull(paramName: string)

  /**
   * A constructed validator: its four readonly fields. Because a validator
   * only exists once construction succeeded, its predicate is never null.
   */
  datatype Validator<!T, !TValue> = Validator(
    duplicateCheckFunc: TValue -> bool,
    ignoreSelf: bool,
    selfValueSelector: Option<T -> TValue>,
    errorMessage: string)

  /**
   * The constructor. A missing predicate throws `ArgumentNullException`
   * naming `duplicateCheckFunc`, and no validator is produced; otherwise the
   * flags are stored as given and a missing message falls back to the default.
   */
  function Construct<T, TValue>(
    duplicateCheckFunc: Option<TValue -> bool>,
    ignoreSelf: bool,
    selfValueSelector: Option<T -> TValue>,
    errorMessage: Option<string>): (r: Result<Validator<T, TValue>, ConstructionError>)
    ensures r.Failure? <==> duplicateCheckFunc.None?
    ensures r.Failure? ==> r.error == ArgumentNull("duplicateCheckFunc")
    ensures r.Success? ==>
      && r.value.duplicateCheckFunc == duplicateCheckFunc.value
      && r.value.ignoreSelf == ignoreSelf
      && r.value.selfValueSelector == selfValueSelector
      && (errorMessage.Some? ==> r.value.errorMessage == errorMessage.value)
      && (errorMessage.None? ==> r.value.errorMessage == DefaultErrorMessage)
  {
    match duplicateCheckFunc
    case None => Failure(ArgumentNull("duplicateCheckFunc"))
    case Some(f) => Success(Validator(f, ignoreSelf, selfValueSelector, errorMessage.GetOr(DefaultErrorMessage)))
  }

  /** The message template reported on failure; the error code plays no part. */
  function GetDefaultMessageTemplate<T, TValue>(v: Validator<T, TValue>, errorCode: string): (r: string)
  {
    v.errorMessage
  }

  /**
   * The self-exemption holds: it is enabled, a selector is configured, and
   * the instance's own value equals the candidate.
   */
  predicate SelfExempt<T, TValue(==)>(v: Validator<T, TValue>, instance: T, value: TValue) {
    v.ignoreSelf && v.selfValueSelector.Some? && v.selfValueSelector.value(instance) == value
  }

  /**
   * The decision, in the order the source takes it: without self-exemption
   * (flag off or no selector) the predicate decides; otherwise a self-match
   * is valid outright and anything else is left to the predicate.
   * Soundness: a value is only rejected when the predicate reports it.
   */
  function IsValid<T, TValue(==)>(v: Validator<T, TValue>, instance: T, value: TValue): (r: bool)
    ensures !r ==> v.duplicateCheckFunc(value)
    ensures SelfExempt(v, instance, value) ==> r
  {
    if !v.ignoreSelf || v.selfValueSelector.None? then
      !v.duplicateCheckFunc(value)
    else
      var selfValue := v.selfValueSelector.value(instance);
      if selfValue == value then
        true
      else
        !v.duplicateCheckFunc(value)
  }

  /** Reference definition: a value is flagged when it is reported and not exempt. */
  predicate Flagged<T, TValue(==)>(v: Validator<T, TValue>, instance: T, value: TValue) {
    v.duplicateCheckFunc(value) && !SelfExempt(v, instance, value)
  }

  /** `IsValid` rejects exactly the flagged values. */
  lemma IsValidIffNotFlagged<T, TValue>(v: Validator<T, TValue>, instance: T, value: TValue)
    ensures IsValid(v, instance, value) <==> !Flagged(v, instance, value)
  {
  }

  /** With the flag off the selector plays no part: the predicate alone decides. */
  lemma PredicateDecidesWithoutIgnoreSelf<T, TValue>(v: Validator<T, TValue>, instance: T, value: TValue)
    requires !v.ignoreSelf
    ensures IsValid(v, instance, value) == !v.duplicateCheckFunc(value)
    ensures forall sel: Option<T -> TValue> ::
      IsValid(v.(selfValueSelector := sel), instance, value) == !v.duplicateCheckFunc(value)
  {
  }

  /** With no selector the flag is silently inert: the predicate alone decides. */
  lemma PredicateDecidesWithoutSelector<T, TValue>(v: Validator<T, TValue>, instance: T, value: TValue)
    requires v.selfValueSelector.None?
    ensures IsValid(v, instance, value) == !v.duplicateCheckFunc(value)
    ensures IsValid(v, instance, value) == IsValid(v.(ignoreSelf := false), instance, value)
  {
  }

  /**
   * On a self-match the value is valid whatever the predicate would say:
   * swapping in any other predicate leaves the answer unchanged.
   */
  lemma SelfMatchIsValid<T, TValue>(v: Validator<T, TValue>, instance: T, value: TValue)
    requires v.ignoreSelf && v.selfValueSelector.Some?
    requires v.selfValueSelector.value(instance) == value
    ensures IsValid(v, instance, value)
    ensures forall p: TValue -> bool :: IsValid(v.(duplicateCheckFunc := p), instance, value)
  {
  }

  /** When the instance's own value differs from the candidate the predicate decides. */
  lemma SelfMismatchDefersToPredicate<T, TValue>(v: Validator<T, TValue>, instance: T, value: TValue)
    requires v.ignoreSelf && v.selfValueSelector.Some?
    requires v.selfValueSelector.value(instance) != value
    ensures IsValid(v, instance, value) == !v.duplicateCheckFunc(value)
  {
  }

  /** A value the predicate does not report is valid under every configuration and instance. */
  lemma NotReportedIsAlwaysValid<T, TValue>(p: TValue -> bool, value: TValue)
    requires !p(value)
    ensures forall ignoreSelf: bool, sel: Option<T -> TValue>, msg: string, instance: T ::
      IsValid(Validator(p, ignoreSelf, sel, msg), instance, value)
  {
  }

  /**
   * A validator built with the constructor's default arguments (flag off, no
   * selector, no message) rejects exactly what the predicate reports and
   * carries the default message.
   */
  lemma DefaultsApplyPredicate<T, TValue>(p: TValue -> bool, instance: T, value: TValue)
    ensures Construct<T, TValue>(Some(p), false, None, None).Success?
    ensures IsValid(Construct<T, TValue>(Some(p), false, None, None).value, instance, value) == !p(value)
    ensures Construct<T, TValue>(Some(p), false, None, None).value.errorMessage == DefaultErrorMessage
  {
  }

  /** A missing predicate fails construction whatever the other arguments are. */
  lemma NullPredicateRejected<T, TValue>(ignoreSelf: bool, sel: Option<T -> TValue>, msg: Option<string>)
    ensures Construct<T, TValue>(None, ignoreSelf, sel, msg) == Failure(ArgumentNull("duplicateCheckFunc"))
  {
  }

  /**
   * The reported template of a constructed validator, for every error code:
   * the caller's message when given, otherwise the default.
   */
  lemma MessageTemplateFallback<T, TValue>(
    p: TValue -> bool, ignoreSelf: bool, sel: Option<T -> TValue>, msg: Option<string>, errorCode: string)
    ensures Construct(Some(p), ignoreSelf, sel, msg).Success?
    ensures msg.Some? ==> GetDefaultMessageTemplate(Construct(Some(p), ignoreSelf, sel, msg).value, errorCode) == msg.value
    ensures msg.None? ==> GetDefaultMessageTemplate(Construct(Some(p), ignoreSelf, sel, msg).value, errorCode) == DefaultErrorMessage
  {
  }

  /**
   * `IsValid` as executed, recording every value handed to the predicate.
   * The predicate is asked at most once, only ever about the candidate, and
   * not at all on the self-match path.
   */
  method EvaluateTraced<T, TValue(==)>(v: Validator<T, TValue>, instance: T, value: TValue)
    returns (valid: bool, queried: seq<TValue>)
    ensures valid == IsValid(v, instance, value)
    ensures |queried| <= 1
    ensures forall k :: 0 <= k < |queried| ==> queried[k] == value
    ensures queried == [] <==> SelfExempt(v, instance, value)
  {
    queried := [];
    if !v.ignoreSelf || v.selfValueSelector.None? {
      queried := queried + [value];
      valid := !v.duplicateCheckFunc(value);
      return;
    }
    var selfValue := v.selfValueSelector.value(instance);
    if selfValue == value {
      valid := true;
      return;
    }
    queried := queried + [value];
    valid := !v.duplicateCheckFunc(value);
  }

  /**
   * For one instance, turning self-exemption on (with selector `sel`) changes
   * the verdict for some candidate exactly when the predicate reports the
   * instance's own value; that value is the only one it can change.
   */
  lemma {:induction false} ExemptionObservableAt<T, TValue>(
    p: TValue -> bool, sel: T -> TValue, msg: string, instance: T)
    ensures
      (exists value: TValue ::
        IsValid(Validator(p, true, Some(sel), msg), instance, value) != IsValid(Validator(p, false, None, msg), instance, value))
      <==> p(sel(instance))
    ensures forall value: TValue ::
      IsValid(Validator(p, true, Some(sel), msg), instance, value) != IsValid(Validator(p, false, None, msg), instance, value)
      ==> value == sel(instance)
  {
    var exempt := Validator(p, true, Some(sel), msg);
    var plain: Validator<T, TValue> := Validator(p, false, None, msg);
    if p(sel(instance)) {
      assert IsValid(exempt, instance, sel(instance)) != IsValid(plain, instance, sel(instance));
    }
  }

  /**
   * Self-exemption with selector `sel` behaves exactly like no exemption, on
   * every instance and candidate, if and only if the predicate reports no
   * instance's own value.
   */
  lemma {:induction false} ExemptionInertIff<T, TValue>(p: TValue -> bool, sel: T -> TValue, msg: string)
    ensures
      (forall instance: T, value: TValue ::
        IsValid(Validator(p, true, Some(sel), msg), instance, value) == IsValid(Validator(p, false, None, msg), instance, value))
      <==> (forall instance: T :: !p(sel(instance)))
  {
    var exempt := Validator(p, true, Some(sel), msg);
    var plain: Validator<T, TValue> := Validator(p, false, None, msg);
    if forall instance: T, value: TValue :: IsValid(exempt, instance, value) == IsValid(plain, instance, value) {
      forall instance: T ensures !p(sel(instance)) {
        assert IsValid(exempt, instance, sel(instance)) == IsValid(plain, instance, sel(instance));
      }
    }
  }
}
