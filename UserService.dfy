/**
  The admission workflow of `UserService`: classify the candidate, read the
  stored users, reject a duplicate, revalue the balance and append the user.
*/
module Services {
  import opened Wrappers
  import opened Valuation
  import opened Entities
  import opened Duplicates

  const InternalServerError := "Internal Server Error"
  const UserIsDuplicated := "User is duplicated"
  const UserCreated := "User Created"

  /**
    The service's answer. `data` is the created user whose projection the
    caller receives; it is present exactly on success.
  */
  datatype Result = Result(isSuccess: bool, message: string, data: Option<User>)

  class UserService {
    /** What the repository's read of all users yields; `None` is a null result. */
    var users: Option<seq<User>>
    /** The normalisation applied to identity fields before they are compared. */
    const norm: string -> string

    constructor (users: Option<seq<User>>, norm: string -> string)
      ensures this.users == users && this.norm == norm
    {
      this.users := users;
      this.norm := norm;
    }

    /**
      Whether a stored user has the candidate's identity. `None` when the
      stored users cannot be read: an unreadable store is not "no duplicate".
    */
    function ExistsUser(candidate: User): (r: Option<bool>)
      reads this, candidate, if users.Some? then users.value else []
      ensures r.None? <==> users.None?
      ensures r.Some? ==>
                (r.value <==> exists i :: 0 <= i < |users.value| &&
                                          Key(norm, users.value[i]) == Key(norm, candidate))
    {
      match users
      case None => None
      case Some(s) => Some(AnyMatch(norm, Key(norm, candidate), s))
    }

    /**
      Admits `candidate`. The candidate object itself is left untouched: the
      tier-specific copy made by `GetUserType` is the one revalued and stored.
    */
    method CreateUser(candidate: User) returns (r: Result)
      modifies this
      // the store could not be read: nothing is written
      ensures old(users).None? ==>
                r == Result(false, InternalServerError, None) && users == old(users)
      // a stored user has the candidate's identity: nothing is written
      ensures old(ExistsUser(candidate)) == Some(true) ==>
                r == Result(false, UserIsDuplicated, None) && users == old(users)
      // otherwise the revalued copy is appended and returned
      ensures old(ExistsUser(candidate)) == Some(false) ==>
                r.isSuccess && r.message == UserCreated && r.data.Some? &&
                fresh(r.data.value) &&
                users == Some(old(users).value + [r.data.value]) &&
                r.data.value.name == candidate.name &&
                r.data.value.email == candidate.email &&
                r.data.value.address == candidate.address &&
                r.data.value.phone == candidate.phone &&
                r.data.value.userType == candidate.userType &&
                r.data.value.money == Revalue(candidate.userType, candidate.money)
    {
      var newUser := candidate.GetUserType();
      var snapshot := users;
      if snapshot.None? {
        return Result(false, InternalServerError, None);
      }
      if ExistsUser(newUser) == Some(true) {
        return Result(false, UserIsDuplicated, None);
      }
      newUser.CalculateMoney();
      users := Some(snapshot.value + [newUser]);
      r := Result(true, UserCreated, Some(newUser));
    }
  }
}
