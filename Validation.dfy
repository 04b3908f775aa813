/**
  `CreateUserCommandValidator`: field rules over a create-user request.
  Rules run in field order (name, address, email, phone); within one field
  the first failing rule is the only one reported. `IsValid` holds exactly
  when no error is reported. `RequiredErrors` and `EmailErrors` are the
  per-field rule chains that `Validate` joins in field order.
*/
module Validation {
  import opened Wrappers

  datatype CreateUserRequest = CreateUserRequest(
    name: Option<string>,
    address: Option<string>,
    email: Option<string>,
    phone: Option<string>,
    money: real,
    userType: Option<string>)

  datatype ValidationResult = ValidationResult(errors: seq<string>) {
    predicate IsValid() { errors == [] }
  }

  const NameRequired := "The name is required"
  const AddressRequired := "The address is required"
  const EmailRequired := "The email is required"
  const EmailNotValid := "The email is not valid"
  const PhoneRequired := "The phone is required"

  /** A required field rejects both a null and an empty value. */
  predicate Required(s: Option<string>): (r: bool)
    ensures r ==> s.Some? && |s.value| > 0
    ensures !r ==> s == None || s == Some("")
  {
    s.Some? && s.value != ""
  }

  /** Position of the first `c` in `s`, or -1. */
  function IndexOf(s: string, c: char): (r: int)
    ensures -1 <= r < |s|
    ensures r == -1 <==> c !in s
    ensures r >= 0 ==> s[r] == c && forall j :: 0 <= j < r ==> s[j] != c
  {
    if s == [] then -1
    else if s[0] == c then 0
    else
      var k := IndexOf(s[1..], c);
      if k == -1 then -1 else k + 1
  }

  /** Position of the last `c` in `s`, or -1. */
  function LastIndexOf(s: string, c: char): (r: int)
    ensures -1 <= r < |s|
    ensures r == -1 <==> c !in s
    ensures r >= 0 ==> s[r] == c && forall j :: r < j < |s| ==> s[j] != c
  {
    if s == [] then -1
    else if s[|s| - 1] == c then |s| - 1
    else
      assert forall j :: 0 <= j < |s| - 1 ==> s[..|s| - 1][j] == s[j];
      LastIndexOf(s[..|s| - 1], c)
  }

  /**
    The email check: the first '@' is not the first character, is not the
    last character, and is also the last '@'.
  */
  predicate IsEmailAddress(s: string): (r: bool)
    ensures r ==> '@' in s && s[0] != '@' && s[|s| - 1] != '@'
  {
    var i := IndexOf(s, '@');
    i > 0 && i != |s| - 1 && i == LastIndexOf(s, '@')
  }

  /** Reference reading of the email check: exactly one '@', strictly inside. */
  ghost predicate WellFormedEmail(s: string)
  {
    exists i :: 0 < i < |s| - 1 && s[i] == '@' &&
                forall j :: 0 <= j < |s| && s[j] == '@' ==> j == i
  }

  lemma IsEmailAddressMeansWellFormed(s: string)
    ensures IsEmailAddress(s) <==> WellFormedEmail(s)
  {}

  /** The errors one field's rules report, in rule order, first failure only. */
  function RequiredErrors(s: Option<string>, message: string): seq<string>
  {
    if Required(s) then [] else [message]
  }

  function EmailErrors(email: Option<string>): seq<string>
  {
    if !Required(email) then [EmailRequired]
    else if !IsEmailAddress(email.value) then [EmailNotValid]
    else []
  }

  /** The request meets every field rule. */
  ghost predicate WellFormed(req: CreateUserRequest)
  {
    Required(req.name) && Required(req.address) &&
    Required(req.email) && WellFormedEmail(req.email.value) &&
    Required(req.phone)
  }

  ghost predicate KnownMessage(m: string)
  {
    m == NameRequired || m == AddressRequired || m == EmailRequired ||
    m == EmailNotValid || m == PhoneRequired
  }

  function Validate(req: CreateUserRequest): (r: ValidationResult)
    ensures r.IsValid() <==> WellFormed(req)
    ensures |r.errors| <= 4
    ensures forall k :: 0 <= k < |r.errors| ==> KnownMessage(r.errors[k])
  {
    ValidationResult(
      RequiredErrors(req.name, NameRequired) +
      RequiredErrors(req.address, AddressRequired) +
      EmailErrors(req.email) +
      RequiredErrors(req.phone, PhoneRequired))
  }

  // First reported error, one lemma per field. Each also states that when the
  // fields after it are valid, its message is the only error.

  lemma NameFirstError(req: CreateUserRequest)
    requires !Required(req.name)
    ensures !Validate(req).IsValid() && Validate(req).errors[0] == NameRequired
    ensures (Required(req.address) && Required(req.email) && WellFormedEmail(req.email.value) &&
             Required(req.phone)) ==> Validate(req).errors == [NameRequired]
  {}

  lemma AddressFirstError(req: CreateUserRequest)
    requires Required(req.name) && !Required(req.address)
    ensures !Validate(req).IsValid() && Validate(req).errors[0] == AddressRequired
    ensures (Required(req.email) && WellFormedEmail(req.email.value) &&
             Required(req.phone)) ==> Validate(req).errors == [AddressRequired]
  {}

  lemma EmailRequiredFirstError(req: CreateUserRequest)
    requires Required(req.name) && Required(req.address) && !Required(req.email)
    ensures !Validate(req).IsValid() && Validate(req).errors[0] == EmailRequired
    ensures Required(req.phone) ==> Validate(req).errors == [EmailRequired]
  {}

  lemma EmailNotValidFirstError(req: CreateUserRequest)
    requires Required(req.name) && Required(req.address) && Required(req.email)
    requires !WellFormedEmail(req.email.value)
    ensures !Validate(req).IsValid() && Validate(req).errors[0] == EmailNotValid
    ensures Required(req.phone) ==> Validate(req).errors == [EmailNotValid]
  {}

  lemma PhoneFirstError(req: CreateUserRequest)
    requires Required(req.name) && Required(req.address) && Required(req.email)
    requires WellFormedEmail(req.email.value) && !Required(req.phone)
    ensures Validate(req).errors == [PhoneRequired]
  {}

  /** A non-empty local part, one '@' and a non-empty domain make a valid email. */
  lemma LocalAtDomainIsValid(local: string, domain: string)
    requires local != [] && domain != []
    requires '@' !in local && '@' !in domain
    ensures IsEmailAddress(local + "@" + domain)
  {}

  /** An email without '@' is never valid. */
  lemma NoAtSignIsNotValid(s: string)
    requires '@' !in s
    ensures !IsEmailAddress(s)
  {}
}
