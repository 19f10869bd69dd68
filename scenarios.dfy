/**
 * Concrete uses of the duplicate check: a reserved user name, and e-mail
 * addresses checked against a set of addresses already taken, with the
 * record's own original address exempt.
 */
module DuplicateCheckScenarios {
  import opened Wrappers
  import opened DuplicateCheck

  /** A user record being edited; `originalEmail` is the stored address. */
  datatype User = User(originalEmail: string)

  /** A user-name rule that rejects only "admin", built with default arguments. */
  function UsernameRule(): (v: Validator<User, string>)
    ensures !v.ignoreSelf && v.selfValueSelector.None?
    ensures v.errorMessage == DefaultErrorMessage
  {
    Construct(Some((s: string) => s == "admin"), false, None, None).value
  }

  /** An e-mail rule over the addresses in `existing`, exempting the record's own address. */
  function EmailRule(existing: set<string>, msg: Option<string>): (v: Validator<User, string>)
    ensures v.ignoreSelf && v.selfValueSelector.Some?
    ensures forall u: User :: v.selfValueSelector.value(u) == u.originalEmail
  {
    Construct(Some((s: string) => s in existing), true, Some((u: User) => u.originalEmail), msg).value
  }

  /** "admin" is rejected, with the default template. */
  lemma ReservedNameRejected(u: User)
    ensures !IsValid(UsernameRule(), u, "admin")
    ensures GetDefaultMessageTemplate(UsernameRule(), "") == "{PropertyName} already exists."
  {
  }

  /** Any other name, "alice" for one, is accepted. */
  lemma OtherNameAccepted(u: User)
    ensures IsValid(UsernameRule(), u, "alice")
  {
  }

  /** Keeping one's own address is accepted even though the address is taken. */
  lemma OwnEmailAccepted()
    ensures IsValid(EmailRule({"a@x.com"}, None), User("a@x.com"), "a@x.com")
  {
  }

  /** Switching to an address another record holds is rejected. */
  lemma TakenEmailRejected()
    ensures !IsValid(EmailRule({"a@x.com", "b@x.com"}, None), User("a@x.com"), "b@x.com")
  {
  }

  /** A custom template is reported exactly as configured, for any error code. */
  lemma CustomTemplateKept(code: string)
    ensures GetDefaultMessageTemplate(EmailRule({}, Some("Duplicate {PropertyName} detected")), code)
      == "Duplicate {PropertyName} detected"
  {
  }
}
