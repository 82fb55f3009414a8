/** The user store behind the auth controller, as the controller sees it:
    users by email (the unique column), new ids drawn from an identity
    sequence. */
module UserService {
  import opened Wrappers
  import opened Users

  const UserNotFoundMessage: string := "User not found"

  /** What the database reports when a second row would share an email. */
  const UniqueEmailViolation: string := "unique constraint violated: users.email"

  /** `findByEmail`: the stored user, or the "User not found" exception. */
  function FindByEmail(users: map<string, User>, email: string): (r: Result<User, string>)
    ensures r.Success? <==> email in users
    ensures r.Success? ==> r.value == users[email]
    ensures r.Failure? ==> r.error == UserNotFoundMessage
  {
    if email in users then Success(users[email]) else Failure(UserNotFoundMessage)
  }

  class UserService {
    var users: map<string, User>
    var nextId: int

    /** Every stored user sits under its own email and carries an assigned
        id below the sequence's next value; ids are never shared. */
    ghost predicate Valid()
      reads this
    {
      && 1 <= nextId
      && (forall e :: e in users ==> users[e].email == e && users[e].id.Some? && 1 <= users[e].id.value < nextId)
      && (forall e1, e2 :: e1 in users && e2 in users && users[e1].id == users[e2].id ==> e1 == e2)
    }

    constructor ()
      ensures Valid() && users == map[] && nextId == 1
    {
      users := map[];
      nextId := 1;
    }

    /** `existsByEmail`. */
    function ExistsByEmail(email: string): (found: bool)
      reads this
      ensures found <==> FindByEmail(users, email).Success?
    {
      email in users
    }

    /** `save` of a new user: the identity column assigns the next id; a
        second user with a stored email violates the unique constraint and
        nothing is stored. */
    method Save(user: User) returns (r: Result<User, string>)
      requires Valid()
      modifies this
      ensures Valid()
      ensures user.email in old(users) ==>
        r == Failure(UniqueEmailViolation) && users == old(users) && nextId == old(nextId)
      ensures user.email !in old(users) ==>
        && r == Success(user.(id := Some(old(nextId))))
        && users == old(users)[user.email := r.value]
        && nextId == old(nextId) + 1
    {
      if user.email in users {
        return Failure(UniqueEmailViolation);
      }
      var saved := user.(id := Some(nextId));
      users := users[user.email := saved];
      nextId := nextId + 1;
      r := Success(saved);
    }
  }
}
