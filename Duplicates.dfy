/**
  Duplicate detection. Two users are the same when their identity keys,
  built from name, email and address, are equal. The normalisation applied
  to each present field is a parameter (`norm`): identity, trimming or
  case folding are all instances. A missing (null) field stays missing,
  so it never equals a present one.
*/
module Duplicates {
  import opened Wrappers
  import opened Entities

  datatype Identity = Identity(name: Option<string>, email: Option<string>, address: Option<string>)

  function Normalize(norm: string -> string, s: Option<string>): Option<string>
  {
    match s
    case None => None
    case Some(v) => Some(norm(v))
  }

  /** The identity key of a user: its three normalised identity fields. */
  function Key(norm: string -> string, u: User): (k: Identity)
    reads u
    ensures k.name.None? <==> u.name.None?
    ensures k.email.None? <==> u.email.None?
    ensures k.address.None? <==> u.address.None?
  {
    Identity(Normalize(norm, u.name), Normalize(norm, u.email), Normalize(norm, u.address))
  }

  /**
    Whether some stored user has the given key, scanning in order and
    stopping at the first match.
  */
  function AnyMatch(norm: string -> string, key: Identity, users: seq<User>): (r: bool)
    reads users
    ensures r <==> exists i :: 0 <= i < |users| && Key(norm, users[i]) == key
  {
    if users == [] then false
    else if Key(norm, users[0]) == key then true
    else
      var r := AnyMatch(norm, key, users[1..]);
      assert forall j :: 0 <= j < |users| - 1 ==> users[1..][j] == users[j + 1];
      r
  }

  /** A stored user is always found again (the candidate itself is a duplicate). */
  lemma StoredUserIsFound(norm: string -> string, u: User, users: seq<User>)
    requires u in users
    ensures AnyMatch(norm, Key(norm, u), users)
  {}

  /**
    A stored user whose identity fields are all null never matches a
    candidate that has any identity field filled in.
  */
  lemma BlankUserNeverMatches(norm: string -> string, blank: User, candidate: User)
    requires blank.name.None? && blank.email.None? && blank.address.None?
    requires candidate.name.Some? || candidate.email.Some? || candidate.address.Some?
    ensures Key(norm, blank) != Key(norm, candidate)
  {}

  ghost predicate Injective(norm: string -> string)
  {
    forall x, y :: norm(x) == norm(y) ==> x == y
  }

  /**
    With an injective normalisation, two users match exactly when their
    name, email and address are equal; a difference in any one of the three
    fields is enough to tell them apart.
  */
  lemma InjectiveKeyMatchesIffEqualFields(norm: string -> string, a: User, b: User)
    requires Injective(norm)
    ensures Key(norm, a) == Key(norm, b) <==>
              a.name == b.name && a.email == b.email && a.address == b.address
  {}
}
