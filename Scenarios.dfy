/**
  The unit tests of the user service and of the request validator, as
  client code of the model: each member builds the test's inputs, runs the
  modelled operation and states the test's assertions as its contract.
  The identity normalisation is a parameter, so each admission scenario
  holds whatever normalisation the service uses.
*/
module Scenarios {
  import opened Wrappers
  import opened Valuation
  import opened Entities
  import opened Duplicates
  import opened Services
  import opened Validation

  /** Test fixture: "Valeria Arrieta", the applicant every test uses. */
  method Applicant(money: real, userType: Tier) returns (u: User)
    ensures fresh(u)
    ensures u.name == Some("Valeria Arrieta") && u.address == Some("Pizzurno 763")
    ensures u.email == Some("vale3@gmail.com") && u.phone == Some("1164874553")
    ensures u.money == money && u.userType == userType
  {
    u := new User(Some("Valeria Arrieta"), Some("Pizzurno 763"), Some("vale3@gmail.com"),
                  Some("1164874553"), money, userType);
  }

  /**
    The test's loop: classify each user, revalue the classified copy and
    collect it. The input users are left as they were.
  */
  method ClassifyAndCalculateAll(list: seq<User>) returns (usersList: seq<User>)
    ensures |usersList| == |list|
    ensures forall i :: 0 <= i < |list| ==>
              fresh(usersList[i]) &&
              usersList[i].userType == list[i].userType &&
              usersList[i].money == Revalue(list[i].userType, list[i].money)
  {
    usersList := [];
    var k := 0;
    while k < |list|
      invariant 0 <= k <= |list|
      invariant |usersList| == k
      invariant forall i :: 0 <= i < k ==>
                  fresh(usersList[i]) &&
                  usersList[i].userType == list[i].userType &&
                  usersList[i].money == Revalue(list[i].userType, list[i].money)
    {
      var newUser := list[k].GetUserType();
      newUser.CalculateMoney();
      usersList := usersList + [newUser];
      k := k + 1;
    }
  }

  /** UserService_CalculateMoney_By_UserType. */
  method CalculateMoneyByUserType() returns (usersList: seq<User>)
    ensures |usersList| == 5
    ensures usersList[0].userType == Normal
    ensures usersList[1].userType == Normal && usersList[2].userType == Normal
    ensures usersList[3].userType == SuperUser
    ensures usersList[4].userType == Premium
    ensures usersList[0].money == 123.2
    ensures usersList[1].money == 162.0
    ensures usersList[2].money == 100.0
    ensures usersList[3].money == 240.0
    ensures usersList[4].money == 1200.0
  {
    var userNormal1 := new User(None, None, None, None, 110.0, Normal);
    var userNormal2 := new User(None, None, None, None, 90.0, Normal);
    var userNormal3 := new User(None, None, None, None, 100.0, Normal);
    var userSuper := new User(None, None, None, None, 200.0, SuperUser);
    var userPremium := new User(None, None, None, None, 400.0, Premium);
    usersList := ClassifyAndCalculateAll([userNormal1, userNormal2, userNormal3, userSuper, userPremium]);
  }

  /**
    UserService_CreateUser_Return_Success: the store holds one blank user
    (`new User()`: null strings, zero money, and a Normal tier, which the test does not depend on).
  */
  method CreateUserReturnSuccess(norm: string -> string) returns (r: Result)
    ensures r.isSuccess && r.data.Some?
  {
    var user := Applicant(100.0, Normal);
    var blank := new User(None, None, None, None, 0.0, Normal);
    var service := new UserService(Some([blank]), norm);
    BlankUserNeverMatches(norm, blank, user);
    r := service.CreateUser(user);
  }

  /** UserService_CreateUser_When_AlreadyExists_Return_No_Success: nothing is appended. */
  method CreateUserWhenAlreadyExists(norm: string -> string)
    returns (r: Result, before: Option<seq<User>>, after: Option<seq<User>>)
    ensures !r.isSuccess && r.message == "User is duplicated"
    ensures after == before
  {
    var user := Applicant(100.0, SuperUser);
    var service := new UserService(Some([user]), norm);
    StoredUserIsFound(norm, user, [user]);
    before := service.users;
    r := service.CreateUser(user);
    after := service.users;
  }

  /** UserService_CreateUser_Return_InternalServerError: the read yields null. */
  method CreateUserReturnsInternalServerError(norm: string -> string) returns (r: Result)
    ensures !r.isSuccess && r.message == "Internal Server Error"
  {
    var user := Applicant(100.0, SuperUser);
    var service := new UserService(None, norm);
    r := service.CreateUser(user);
  }

  /** UserServices_UserExists_Return_True. */
  method UserExistsReturnTrue(norm: string -> string) returns (r: Option<bool>)
    ensures r == Some(true)
  {
    var user := Applicant(100.0, Normal);
    var service := new UserService(Some([user]), norm);
    StoredUserIsFound(norm, user, [user]);
    r := service.ExistsUser(user);
  }

  // The validator tests: one field of the applicant's request is bad.

  function ApplicantRequest(): CreateUserRequest
  {
    CreateUserRequest(Some("Valeria Arrieta"), Some("Pizzurno 763"), Some("vale3@gmail.com"),
                      Some("1164874553"), 100.0, Some("Normal"))
  }

  lemma ApplicantRequestIsValid()
    ensures Validate(ApplicantRequest()).IsValid()
  {
    LocalAtDomainIsValid("vale3", "gmail.com");
    assert "vale3" + "@" + "gmail.com" == "vale3@gmail.com";
  }

  lemma NameIsRequired()
    ensures var r := Validate(ApplicantRequest().(name := None));
            !r.IsValid() && r.errors[0] == "The name is required"
  {}

  lemma AddressIsRequired()
    ensures var r := Validate(ApplicantRequest().(address := Some("")));
            !r.IsValid() && r.errors[0] == "The address is required"
  {}

  lemma EmailIsRequired()
    ensures var r := Validate(ApplicantRequest().(email := None));
            !r.IsValid() && r.errors[0] == "The email is required"
  {}

  lemma EmailIsInvalid()
    ensures var r := Validate(ApplicantRequest().(email := Some("valegmail.com")));
            !r.IsValid() && r.errors[0] == "The email is not valid"
  {
    NoAtSignIsNotValid("valegmail.com");
  }

  lemma PhoneIsRequired()
    ensures var r := Validate(ApplicantRequest().(phone := Some("")));
            !r.IsValid() && r.errors[0] == "The phone is required"
  {
    ApplicantRequestIsValid();
  }
}
