/** User registration (`POST /api/create_user`): field validation, the
    duplicate-email check, and the insert of a user whose password is
    stored hashed. */
module Users {
  import opened Http

  /** A stored user document. `password` holds the hash, never the plaintext. */
  datatype User = User(
    id: UserId,
    name: string,
    email: string,
    password: string,
    profileImage: Option<string>,
    date: nat)

  /** The JSON body of a registration request; an absent field reads as "". */
  datatype Registration = Registration(
    name: string,
    email: string,
    password: string,
    profileImage: Option<string>)

  const MinPasswordLength: nat := 8

  const NameRequired := "Name is required"
  const EmailInvalid := "Please include a valid email"
  const PasswordTooShort := "Please enter a password with a minimum of 8 characters"
  const UserExists := "User already exists"
  const Registered := "User registered"

  /** The messages the three field checks collect, in the order the checks
      are declared; `isEmail` is the validator library's email predicate. */
  function ValidationErrors(req: Registration, isEmail: string -> bool): (errs: seq<string>)
    ensures errs == [] <==> req.name != "" && isEmail(req.email) && |req.password| >= MinPasswordLength
    ensures NameRequired in errs <==> req.name == ""
    ensures EmailInvalid in errs <==> !isEmail(req.email)
    ensures PasswordTooShort in errs <==> |req.password| < MinPasswordLength
    ensures |errs| <= 3
  {
    (if req.name == "" then [NameRequired] else [])
    + (if isEmail(req.email) then [] else [EmailInvalid])
    + (if |req.password| < MinPasswordLength then [PasswordTooShort] else [])
  }

  /** `User.findOne({ email })` finds a document. */
  predicate EmailTaken(users: seq<User>, email: string)
  {
    exists i :: 0 <= i < |users| && users[i].email == email
  }

  /** `User.findOne({ email })`: the first stored user with that email, or
      nothing (`null`). */
  function FindByEmail(users: seq<User>, email: string): (r: Option<User>)
    ensures r.Some? <==> EmailTaken(users, email)
    ensures r.Some? ==> r.value in users && r.value.email == email
  {
    if users == [] then None
    else if users[0].email == email then Some(users[0])
    else FindByEmail(users[1..], email)
  }

  /** No two stored users share an email. */
  predicate EmailsUnique(users: seq<User>)
  {
    forall i, j :: 0 <= i < j < |users| ==> users[i].email != users[j].email
  }

  /** `User.findById(id)`: the user with that id, or nothing (`null`). */
  function FindById(users: seq<User>, id: UserId): (r: Option<User>)
    ensures r.Some? ==> r.value in users && r.value.id == id
    ensures r.None? ==> forall i :: 0 <= i < |users| ==> users[i].id != id
  {
    if users == [] then None
    else if users[0].id == id then Some(users[0])
    else FindById(users[1..], id)
  }

  /** Appending a user whose email is not yet taken keeps emails unique. */
  lemma InsertKeepsEmailsUnique(users: seq<User>, u: User)
    requires EmailsUnique(users)
    requires !EmailTaken(users, u.email)
    ensures EmailsUnique(users + [u])
  {
  }

  /** The user collection. */
  class UserStore {
    var users: seq<User>
    var nextId: nat

    ghost predicate Valid()
      reads this
    {
      && EmailsUnique(users)
      && (forall i :: 0 <= i < |users| ==> users[i].id < nextId)
      && (forall i, j :: 0 <= i < j < |users| ==> users[i].id != users[j].id)
    }

    constructor ()
      ensures Valid() && users == []
    {
      users := [];
      nextId := 0;
    }

    /** The registration handler. `hash` stands for bcrypt's salted hash and
        `now` for `Date.now`. */
    method Register(req: Registration, isEmail: string -> bool, hash: string -> string, now: nat)
      returns (reply: Reply<string>)
      requires Valid()
      modifies this
      ensures Valid()
      ensures reply.Status? ==> users == old(users) && nextId == old(nextId)
      ensures ValidationErrors(req, isEmail) != [] ==>
                reply == Status(BadRequest, ValidationErrors(req, isEmail))
      ensures ValidationErrors(req, isEmail) == [] && EmailTaken(old(users), req.email) ==>
                reply == Status(BadRequest, [UserExists])
      ensures ValidationErrors(req, isEmail) == [] && !EmailTaken(old(users), req.email) ==>
                && reply == Ok(Registered)
                && users == old(users) + [User(old(nextId), req.name, req.email, hash(req.password), req.profileImage, now)]
                && nextId == old(nextId) + 1
    {
      var errs := ValidationErrors(req, isEmail);
      if errs != [] {
        return Status(BadRequest, errs);
      }
      var existing := FindByEmail(users, req.email);
      if existing.Some? {
        return Status(BadRequest, [UserExists]);
      }
      var user := User(nextId, req.name, req.email, req.password, req.profileImage, now);
      user := user.(password := hash(req.password));
      InsertKeepsEmailsUnique(users, user);
      users := users + [user];
      nextId := nextId + 1;
      reply := Ok(Registered);
    }
  }

  /** Registering one valid request twice: the first is accepted, the second
      is refused as a duplicate, and one user is stored. */
  method RegisterTwiceScenario(req: Registration, isEmail: string -> bool, hash: string -> string, now: nat)
    returns (first: Reply<string>, second: Reply<string>, count: nat)
    requires ValidationErrors(req, isEmail) == []
    ensures first == Ok(Registered)
    ensures second == Status(BadRequest, [UserExists])
    ensures count == 1
  {
    var store := new UserStore();
    first := store.Register(req, isEmail, hash, now);
    assert store.users[0].email == req.email;
    second := store.Register(req, isEmail, hash, now + 1);
    count := |store.users|;
  }

  /** A 7-character password is refused and an 8-character one accepted. */
  method PasswordLengthScenario(name: string, email: string, isEmail: string -> bool, hash: string -> string, now: nat)
    returns (seven: Reply<string>, eight: Reply<string>)
    requires name != "" && isEmail(email)
    ensures seven == Status(BadRequest, [PasswordTooShort])
    ensures eight == Ok(Registered)
  {
    var store := new UserStore();
    seven := store.Register(Registration(name, email, "1234567", None), isEmail, hash, now);
    eight := store.Register(Registration(name, email, "12345678", None), isEmail, hash, now);
  }
}
