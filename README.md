# Sat.Recruitment user admission, modelled in Dafny

Sat.Recruitment registers a new user. A create-user request is first
checked field by field (`CreateUserCommandValidator`). The user service
(`UserService.CreateUser`) then turns the user into its tier-specific
user (`GetUserType`). It reads all stored users and rejects a duplicate.
Otherwise it revalues the user's money by tier (`CalculateMoney`) and
appends the user to the store.

The model is written against the assertions of the unit tests
`UserServiceTest` and `CreateUserCommandValidatorTest`.

Modules:

- `Wrappers` (Wrappers.dfy): `Option`, where `None` stands for C# `null`.
- `Valuation` (Valuation.dfy): the `Tier` enumeration, the gift-rate bands
  (`GiftRate`) and the revaluation (`Revalue`). Money is `real`, so
  decimal equalities are exact.
- `Entities` (Entities.dfy): the `User` class. Its fields are the entity's
  properties. `CalculateMoney` rewrites `money` in place. `GetUserType`
  returns a new object with the same fields. The tier-specific C# subclass
  is represented by `userType`, which selects the rule.
- `Duplicates` (Duplicates.dfy): the identity key over (name, email,
  address) and the in-order scan `AnyMatch`. The normalisation of a present
  field is a parameter `norm`, and a null field never equals a present one.
- `Services` (UserService.dfy): the `UserService` class. Its `users` field
  is what the repository's read returns (`None` for a null result), and a
  successful admission appends to it.
- `Validation` (Validation.dfy): the request, the five messages, the
  email check and `Validate`.
- `Scenarios` (Scenarios.dfy): each unit test as client code whose
  contract is the test's assertions.

Where a test's comment and its assertion disagree, the model follows the
assertion:

- The comment at UserServiceTest.cs:147 says 97.2, but the assertion at
  :182 requires 162, an 80% gift, for a Normal balance of 90.
- At exactly 100 a Normal balance is unchanged (:183), so no ×1.08 rule
  applies at the boundary; it would give 108.

## Model

| member | source | states |
|---|---|---|
| Valuation.GiftRate | Sat.Recruitment.Tests/Services/UserServiceTest.cs:140-164 | the body is the band table (Normal 12% above 100, 80% below and 0 at exactly 100; SuperUser 20%; Premium 200%); the contract bounds the rate by 0 and 2 |
| Valuation.Revalue | Sat.Recruitment.Tests/Services/UserServiceTest.cs:173-185 | the revalued balance never moves towards zero and at most triples the balance |
| Valuation.NormalAboveHundred | Sat.Recruitment.Tests/Services/UserServiceTest.cs:140-144 | Normal with 110 becomes exactly 123.2 (assertion at line 181) |
| Valuation.NormalBelowHundred | Sat.Recruitment.Tests/Services/UserServiceTest.cs:145-149 | Normal with 90 becomes exactly 162 (assertion at line 182), not the 97.2 of the comment |
| Valuation.NormalAtHundred | Sat.Recruitment.Tests/Services/UserServiceTest.cs:150-154 | Normal with exactly 100 stays 100 (assertion at line 183), so no ×1.08 applies at the boundary |
| Valuation.SuperUserTwoHundred | Sat.Recruitment.Tests/Services/UserServiceTest.cs:155-159 | SuperUser with 200 becomes 240 (assertion at line 184) |
| Valuation.PremiumFourHundred | Sat.Recruitment.Tests/Services/UserServiceTest.cs:160-164 | Premium with 400 becomes 1200 (assertion at line 185) |
| Valuation.RevalueGrowsPositive | Sat.Recruitment.Tests/Services/UserServiceTest.cs:181-185 | under the chosen bands, a positive balance grows if and only if it is not a Normal balance of exactly 100 |
| Valuation.NormalNotMonotoneAtHundred | Sat.Recruitment.Tests/Services/UserServiceTest.cs:182-183 | the asserted Normal rule is not monotone: 90 ends (at 162) above the revalued 100 |
| Entities.User.constructor | Sat.Recruitment.Tests/Services/UserServiceTest.cs:32-40 | a user holds exactly the given name, address, email, phone, money and tier |
| Entities.User.GetUserType | Sat.Recruitment.Tests/Services/UserServiceTest.cs:172-180 | returns a new user with the same fields, so the tier is kept |
| Entities.User.CalculateMoney | Sat.Recruitment.Tests/Services/UserServiceTest.cs:173 | rewrites only the money field, with the tier's revaluation of the old balance |
| Duplicates.Key | Sat.Recruitment.Tests/Services/UserServiceTest.cs:34-36 | the body is the normalised (name, email, address) tuple; the contract states that each key field is null exactly when the user's field is |
| Duplicates.AnyMatch | Sat.Recruitment.Tests/Services/UserServiceTest.cs:126-132 | the in-order scan is true exactly when some stored user has the candidate's key |
| Duplicates.StoredUserIsFound | Sat.Recruitment.Tests/Services/UserServiceTest.cs:113-133 | a user that is itself in the stored list is always found, whatever the normalisation |
| Duplicates.BlankUserNeverMatches | Sat.Recruitment.Tests/Services/UserServiceTest.cs:52-62 | a stored user whose name, email and address are null never matches a candidate with any of them filled in |
| Duplicates.InjectiveKeyMatchesIffEqualFields | Sat.Recruitment.Tests/Services/UserServiceTest.cs:66-87 | with an injective normalisation, two users match if and only if name, email and address are all equal |
| Services.UserService.constructor | Sat.Recruitment.Tests/Services/UserServiceTest.cs:23-26 | a service over the given store read and identity normalisation |
| Services.UserService.ExistsUser | Sat.Recruitment.Tests/Services/UserServiceTest.cs:113-133 | absent exactly when the store cannot be read; otherwise true exactly when a stored user has the candidate's key |
| Services.UserService.CreateUser | Sat.Recruitment.Tests/Services/UserServiceTest.cs:28-110 | an unreadable store gives "Internal Server Error" and a duplicate gives "User is duplicated", both with no write. Otherwise a new user is appended and returned as data, with the candidate's fields and its revalued money |
| Validation.Required | Sat.Recruitment.Tests/Commands/CreateUser/CreateUserCommandValidatorTest.cs:25-51 | a required field accepts only a present, non-empty value and rejects exactly null and the empty string (null name at line 25, empty address at line 51) |
| Validation.IndexOf | Sat.Recruitment.Tests/Commands/CreateUser/CreateUserCommandValidatorTest.cs:102 | the position of the first occurrence of a character, or -1 exactly when it does not occur |
| Validation.LastIndexOf | Sat.Recruitment.Tests/Commands/CreateUser/CreateUserCommandValidatorTest.cs:102 | the position of the last occurrence of a character, or -1 exactly when it does not occur |
| Validation.IsEmailAddress | Sat.Recruitment.Tests/Commands/CreateUser/CreateUserCommandValidatorTest.cs:92-115 | an address that passes the email check contains '@' and neither starts nor ends with it |
| Validation.Validate | Sat.Recruitment.Tests/Commands/CreateUser/CreateUserCommandValidatorTest.cs:35-39 | valid if and only if all four fields are present and non-empty and the email is well formed. There are at most four errors, each one of the five known messages |
| Validation.IsEmailAddressMeansWellFormed | Sat.Recruitment.Tests/Commands/CreateUser/CreateUserCommandValidatorTest.cs:92-115 | the email check holds if and only if the address has exactly one '@', neither first nor last |
| Validation.LocalAtDomainIsValid | Sat.Recruitment.Tests/Commands/CreateUser/CreateUserCommandValidatorTest.cs:27 | a non-empty local part, '@' and a non-empty domain, without other '@', pass the email check |
| Validation.NoAtSignIsNotValid | Sat.Recruitment.Tests/Commands/CreateUser/CreateUserCommandValidatorTest.cs:102-114 | an email without '@' never passes the email check |
| Validation.NameFirstError | Sat.Recruitment.Tests/Commands/CreateUser/CreateUserCommandValidatorTest.cs:17-40 | a missing name makes the request invalid with "The name is required" first, and as the only error when the other fields are valid |
| Validation.AddressFirstError | Sat.Recruitment.Tests/Commands/CreateUser/CreateUserCommandValidatorTest.cs:42-65 | with a valid name, a null or empty address gives "The address is required" first, and only that when the rest is valid |
| Validation.EmailRequiredFirstError | Sat.Recruitment.Tests/Commands/CreateUser/CreateUserCommandValidatorTest.cs:67-90 | with valid name and address, a missing email gives "The email is required" first, and only that when the phone is valid |
| Validation.EmailNotValidFirstError | Sat.Recruitment.Tests/Commands/CreateUser/CreateUserCommandValidatorTest.cs:92-115 | with valid name and address, a present but malformed email gives "The email is not valid" first, and only that when the phone is valid |
| Validation.PhoneFirstError | Sat.Recruitment.Tests/Commands/CreateUser/CreateUserCommandValidatorTest.cs:117-140 | with every other field valid, a missing phone gives exactly the error "The phone is required" |
| Scenarios.ClassifyAndCalculateAll | Sat.Recruitment.Tests/Services/UserServiceTest.cs:170-175 | the loop returns one new user per input, in order, with the input's tier and its revalued money |
| Scenarios.CalculateMoneyByUserType | Sat.Recruitment.Tests/Services/UserServiceTest.cs:136-186 | the five classified users keep their tiers and hold 123.2, 162, 100, 240 and 1200 |
| Scenarios.CreateUserReturnSuccess | Sat.Recruitment.Tests/Services/UserServiceTest.cs:28-63 | against a store holding one blank user, admission succeeds with data present, for every normalisation |
| Scenarios.CreateUserWhenAlreadyExists | Sat.Recruitment.Tests/Services/UserServiceTest.cs:66-87 | when the candidate itself is stored, admission fails with "User is duplicated" and the store is unchanged |
| Scenarios.CreateUserReturnsInternalServerError | Sat.Recruitment.Tests/Services/UserServiceTest.cs:89-110 | a null store read makes admission fail with "Internal Server Error" |
| Scenarios.UserExistsReturnTrue | Sat.Recruitment.Tests/Services/UserServiceTest.cs:113-133 | the stored candidate is reported as existing |
| Scenarios.ApplicantRequestIsValid | Sat.Recruitment.Tests/Commands/CreateUser/CreateUserCommandValidatorTest.cs:23-31 | the test applicant's request, with no field changed, raises no error ("vale3@gmail.com" passes the email check) |
| Scenarios.NameIsRequired | Sat.Recruitment.Tests/Commands/CreateUser/CreateUserCommandValidatorTest.cs:17-40 | a null name: invalid, first error "The name is required" |
| Scenarios.AddressIsRequired | Sat.Recruitment.Tests/Commands/CreateUser/CreateUserCommandValidatorTest.cs:42-65 | an empty address: invalid, first error "The address is required" |
| Scenarios.EmailIsRequired | Sat.Recruitment.Tests/Commands/CreateUser/CreateUserCommandValidatorTest.cs:67-90 | a null email: invalid, first error "The email is required" |
| Scenarios.EmailIsInvalid | Sat.Recruitment.Tests/Commands/CreateUser/CreateUserCommandValidatorTest.cs:92-115 | "valegmail.com": invalid, first error "The email is not valid" |
| Scenarios.PhoneIsRequired | Sat.Recruitment.Tests/Commands/CreateUser/CreateUserCommandValidatorTest.cs:117-140 | an empty phone: invalid, first error "The phone is required" |

## Left out

- Valuation.Revalue: C# `decimal` arithmetic is modelled by unbounded exact reals. Two of its behaviours are not captured. First, results are rounded to about 28–29 significant digits (at most 28 decimal places): a SuperUser balance of 1e-28 gets a 20% gift of 2e-29, which decimal rounds to 0, so C# keeps 1e-28 while the model gives 1.2e-28. Second, results above about 7.9e28 throw `OverflowException`: a Premium 3e28 throws in C#, but the model admits the user with 9e28.
- Valuation.GiftRate: only the five asserted points are fixed by the tests. Every other band is a stated choice: SuperUser and Premium use one rate at every balance, and Normal uses 12% above 100 and 80% below.
- Duplicates.Key: the concrete normalisation (trimming, case folding) is fixed by no test. It is the parameter `norm`, and no lemma depends on its choice except through `Injective`.
- Validation.IsEmailAddress: the validator library's email rule is fixed by no test. The model uses "one '@', neither first nor last", which agrees with both tested addresses.
- Validation.Required: whitespace-only values count as present. The validator library's `NotEmpty` rule rejects them, but no test exercises them, so the model deliberately keeps the plainer rule "not null and not empty".
- Validation.Validate: only the first error is pinned by the tests. The order of fields (name, address, email, phone) and "one error per field" are stated choices. The request's money and type label are not checked, because no test shows a rule for them.
- Converting the request's text type label into a `Tier` is done by the object mapper. It and the "invalid tier" rejection are not part of this model; `GetUserType` starts from a tier that is already an enumeration value.
- Services.UserService.CreateUser: `data` is the stored user itself. Its mapper projection into a request object is not modelled.
- The command handler and the HTTP controller only forward the service's result and map success to an HTTP status. They are not part of this model.
- `async`/`Task`, the mocking setup, the repository's storage mechanism and logging are not modelled. The repository's read is the `users` field, and its add is an append to it.
- The read-then-append race between two concurrent admissions of the same identity is a concurrency property. The model is sequential.
- The store holds references to users, as a C# list does. Admission stores a fresh copy, so later changes to the caller's candidate object do not reach the store.
