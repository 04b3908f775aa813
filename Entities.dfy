/**
  The `User` entity: the record that is admitted, revalued and stored.
  Its money is rewritten in place by `CalculateMoney`.
*/
module Entities {
  import opened Wrappers
  import opened Valuation

  class User {
    // `None` is a C# `null` string.
    var name: Option<string>
    var address: Option<string>
    var email: Option<string>
    var phone: Option<string>
    var money: real
    var userType: Tier

    constructor (name: Option<string>, address: Option<string>, email: Option<string>,
                 phone: Option<string>, money: real, userType: Tier)
      ensures this.name == name && this.address == address && this.email == email
      ensures this.phone == phone && this.money == money && this.userType == userType
    {
      this.name, this.address, this.email := name, address, email;
      this.phone, this.money, this.userType := phone, money, userType;
    }

    /**
      The tier-specific user for this user's tier: a new object with the
      same fields. The C# subclass it would be is recorded by `userType`,
      which selects the rule `CalculateMoney` applies.
    */
    method GetUserType() returns (r: User)
      ensures fresh(r)
      ensures r.name == name && r.address == address && r.email == email
      ensures r.phone == phone && r.money == money && r.userType == userType
    {
      r := new User(name, address, email, phone, money, userType);
    }

    /** Rewrites the balance with its tier's revaluation; nothing else changes. */
    method CalculateMoney()
      modifies this`money
      ensures money == Revalue(userType, old(money))
    {
      money := Revalue(userType, money);
    }
  }
}
