/** service/auth_service.go: log-in, sign-up and profile changes over the user
    repository. Password hashing, password checking and token signing are supplied
    from outside as uninterpreted functions. */
module AuthSvc {
  import opened Wrappers
  import opened Domain
  import opened Store
  import UserRepo

  /** utils.HashPassword (None: the hash failed, with the library's error text
      `hashError`), utils.CheckPassword(hashed, plain) and
      utils.GenerateToken(id, username) (None: signing failed). */
  datatype Crypto = Crypto(
    hash: string -> Option<string>,
    hashError: string -> string,
    check: (string, string) -> bool,
    token: (int, string) -> Option<string>)

  /** The one property relied on: a password checks against its own hash. */
  ghost predicate Sound(c: Crypto) {
    forall p :: c.hash(p).Some? ==> c.check(c.hash(p).value, p)
  }

  /** The log-in and sign-up request bodies (both `username`, `password`). */
  datatype Credentials = Credentials(username: string, password: string)

  datatype AuthResponse = AuthResponse(token: string, user: User)

  /** Go's `len` on a string: the number of bytes of its UTF-8 encoding. */
  function Utf8Len(s: string): (n: nat)
    ensures |s| <= n <= 4 * |s|
    ensures (forall i :: 0 <= i < |s| ==> s[i] < 128 as char) ==> n == |s|
  {
    if s == [] then 0
    else
      var c := s[|s| - 1] as int;
      Utf8Len(s[..|s| - 1]) + (if c < 0x80 then 1 else if c < 0x800 then 2 else if c < 0x10000 then 3 else 4)
  }

  /** The shortest password `Signup` accepts, in bytes. */
  const MinPasswordBytes: nat := 6

  /** Some user is called `name`. */
  ghost predicate Taken(users: map<int, UserRow>, name: string) {
    exists id :: id in users && users[id].username == name
  }

  /** The checks `Signup` makes before it hashes, in order: both fields present, then
      the password at least six bytes long, then the name not taken. */
  function SignupGate(req: Credentials, taken: bool): (r: Outcome<Error>)
    ensures r == Pass <==> req.username != "" && req.password != ""
                            && Utf8Len(req.password) >= MinPasswordBytes && !taken
    ensures r == Fail(CredentialsRequired) <==> req.username == "" || req.password == ""
    ensures r == Fail(PasswordTooShort) <==>
              req.username != "" && req.password != "" && Utf8Len(req.password) < MinPasswordBytes
    ensures r == Fail(UsernameTaken) <==>
              req.username != "" && req.password != "" && Utf8Len(req.password) >= MinPasswordBytes && taken
    ensures r.Fail? ==> r.error in {CredentialsRequired, PasswordTooShort, UsernameTaken}
  {
    if req.username == "" || req.password == "" then Fail(CredentialsRequired)
    else if Utf8Len(req.password) < MinPasswordBytes then Fail(PasswordTooShort)
    else if taken then Fail(UsernameTaken)
    else Pass
  }

  /** The length rule counts bytes, not characters: three accented letters are long
      enough, five ASCII letters are not. */
  lemma {:induction false} PasswordLengthInBytes()
    ensures SignupGate(Credentials("ann", "ééé"), false) == Pass
    ensures SignupGate(Credentials("ann", "abcde"), false) == Fail(PasswordTooShort)
    ensures SignupGate(Credentials("", "abcde"), true) == Fail(CredentialsRequired)
    ensures SignupGate(Credentials("ann", "abcdef"), true) == Fail(UsernameTaken)
  {
    var e := "ééé";
    assert e[..2][..1] == "é";
    assert Utf8Len(e[..2][..1]) == 2;
    assert Utf8Len(e[..2]) == 4;
    assert Utf8Len(e) == 6;
    var a := "abcde";
    assert Utf8Len(a) == 5;
  }

  /** Logging in as `name` with `password` cannot be refused as invalid: the fields are
      present, someone has that name, and the password checks against every stored
      hash under that name. */
  ghost predicate Accepts(users: map<int, UserRow>, crypto: Crypto, name: string, password: string) {
    && name != "" && password != ""
    && Taken(users, name)
    && forall id :: id in users && users[id].username == name ==> crypto.check(users[id].password, password)
  }

  /** Logging in as `name` with `password` is refused as invalid whichever user of that
      name is found: the password checks against none of their stored hashes (which
      includes the case that nobody has that name). */
  ghost predicate Refuses(users: map<int, UserRow>, crypto: Crypto, name: string, password: string) {
    forall id :: id in users && users[id].username == name ==> !crypto.check(users[id].password, password)
  }

  class AuthService {
    const userRepo: UserRepo.UserRepository
    const crypto: Crypto

    constructor (userRepo: UserRepo.UserRepository, crypto: Crypto)
      ensures this.userRepo == userRepo && this.crypto == crypto
    {
      this.userRepo := userRepo;
      this.crypto := crypto;
    }

    /** `Login`: missing fields are refused before any look-up; an unknown name and a
        wrong password give the same error; success returns a token for the user found. */
    method Login(req: Credentials) returns (r: Result<AuthResponse, Error>)
      ensures r == Failure(CredentialsRequired) <==> req.username == "" || req.password == ""
      ensures req.username != "" && req.password != "" && !Taken(userRepo.db.users, req.username) ==>
                r == Failure(InvalidCredentials)
      ensures req.username != "" && req.password != "" && Refuses(userRepo.db.users, crypto, req.username, req.password) ==>
                r == Failure(InvalidCredentials)
      ensures r == Failure(InvalidCredentials) ==>
                !Taken(userRepo.db.users, req.username)
                || exists id :: id in userRepo.db.users && userRepo.db.users[id].username == req.username
                                && !crypto.check(userRepo.db.users[id].password, req.password)
      ensures r == Failure(TokenFailed) ==>
                exists id :: id in userRepo.db.users && userRepo.db.users[id].username == req.username
                             && crypto.check(userRepo.db.users[id].password, req.password)
                             && crypto.token(id, req.username).None?
      ensures Accepts(userRepo.db.users, crypto, req.username, req.password) ==>
                r.Success? || r == Failure(TokenFailed)
      ensures r.Success? ==>
                && r.value.user.id in userRepo.db.users
                && r.value.user == UserRepo.Loaded(r.value.user.id, userRepo.db.users[r.value.user.id])
                && r.value.user.username == req.username
                && crypto.check(r.value.user.password, req.password)
                && crypto.token(r.value.user.id, req.username) == Some(r.value.token)
      ensures r.Failure? ==> r.error in {CredentialsRequired, InvalidCredentials, TokenFailed}
    {
      if req.username == "" || req.password == "" {
        return Failure(CredentialsRequired);
      }
      var found := userRepo.FindByUsername(req.username);
      if found.Failure? {
        return Failure(InvalidCredentials);
      }
      var user := found.value;
      if !crypto.check(user.password, req.password) {
        return Failure(InvalidCredentials);
      }
      var token := crypto.token(user.id, user.username);
      if token.None? {
        return Failure(TokenFailed);
      }
      r := Success(AuthResponse(token.value, user));
    }

    /** `Signup`: the gate, then the hash, then one new row holding the hash (never the
        plain password). A token failure comes after the row is written. Once the row is
        written, logging in with the same credentials is accepted. */
    method Signup(req: Credentials, now: Time, createOk: bool) returns (r: Result<AuthResponse, Error>)
      requires userRepo.db.Valid()
      modifies userRepo.db`users, userRepo.db`nextUserId
      ensures userRepo.db.Valid()
      ensures SignupGate(req, Taken(old(userRepo.db.users), req.username)).Fail? ==>
                r == Failure(SignupGate(req, Taken(old(userRepo.db.users), req.username)).error)
      ensures SignupGate(req, Taken(old(userRepo.db.users), req.username)) == Pass && crypto.hash(req.password).None? ==>
                r == Failure(HashFailed)
      ensures (SignupGate(req, Taken(old(userRepo.db.users), req.username)) == Pass && crypto.hash(req.password).Some?
               && !createOk) ==> r == Failure(UserCreateFailed)
      ensures var created := SignupGate(req, Taken(old(userRepo.db.users), req.username)) == Pass
                             && crypto.hash(req.password).Some? && createOk;
              && (!created ==> userRepo.db.users == old(userRepo.db.users)
                               && userRepo.db.nextUserId == old(userRepo.db.nextUserId))
              && (created ==> userRepo.db.users == old(userRepo.db.users)[old(userRepo.db.nextUserId) :=
                                 UserRow(req.username, crypto.hash(req.password).value, "", now, now)]
                              && userRepo.db.nextUserId == old(userRepo.db.nextUserId) + 1)
              && (created && Sound(crypto) ==> Accepts(userRepo.db.users, crypto, req.username, req.password))
              && (created ==> r == match crypto.token(old(userRepo.db.nextUserId), req.username)
                                   case None => Failure(TokenFailed)
                                   case Some(tok) => Success(AuthResponse(tok,
                                     User(old(userRepo.db.nextUserId), req.username, crypto.hash(req.password).value,
                                          "", now, now))))
    {
      var existing := userRepo.FindByUsername(req.username);
      var gate := SignupGate(req, existing.Success?);
      if gate.Fail? {
        return Failure(gate.error);
      }
      var hashed := crypto.hash(req.password);
      if hashed.None? {
        return Failure(HashFailed);
      }
      var created := userRepo.Create(User(0, req.username, hashed.value, "", 0, 0), now, createOk);
      if created.Failure? {
        return Failure(created.error);
      }
      var user := created.value;
      forall id | id in userRepo.db.users && userRepo.db.users[id].username == req.username
        ensures id == user.id
      {
        if id != user.id {
          assert false;
        }
      }
      assert user.id in userRepo.db.users && userRepo.db.users[user.id].username == req.username;
      var token := crypto.token(user.id, user.username);
      if token.None? {
        return Failure(TokenFailed);
      }
      r := Success(AuthResponse(token.value, user));
    }

    /** `UpdateProfile`: sets the name and the photo of an existing user, with no check
        that the name is non-empty or unused; the stored password is written back as read. */
    method UpdateProfile(userId: int, username: string, profilePhoto: string, now: Time, ok: bool)
      returns (r: Outcome<Error>)
      requires userRepo.db.Valid()
      modifies userRepo.db`users
      ensures userRepo.db.Valid()
      ensures r == if userId !in old(userRepo.db.users) then Fail(UserNotFound)
                   else if ok then Pass else Fail(UserUpdateFailed)
      ensures userRepo.db.users == if userId in old(userRepo.db.users) && ok
                                   then old(userRepo.db.users)[userId := old(userRepo.db.users)[userId].(
                                          username := username, profilePhoto := profilePhoto, updatedAt := now)]
                                   else old(userRepo.db.users)
    {
      var found := userRepo.FindByID(userId);
      if found.Failure? {
        return Fail(found.error);
      }
      var user := found.value.(username := username, profilePhoto := profilePhoto);
      r := userRepo.Update(user, now, ok);
    }

    /** `UpdatePassword`: stores the hash of the new password, with no length rule. The
        user is loaded by `FindByID`, which does not read the photo, and written back
        whole, so the photo is cleared. A hash failure is passed on unwrapped, with the
        hash library's own text. */
    method UpdatePassword(userId: int, newPassword: string, now: Time, ok: bool) returns (r: Outcome<Error>)
      requires userRepo.db.Valid()
      modifies userRepo.db`users
      ensures userRepo.db.Valid()
      ensures r == if userId !in old(userRepo.db.users) then Fail(UserNotFound)
                   else if crypto.hash(newPassword).None? then Fail(HashLibraryError(crypto.hashError(newPassword)))
                   else if ok then Pass else Fail(UserUpdateFailed)
      ensures userRepo.db.users == if r == Pass
                                   then old(userRepo.db.users)[userId := old(userRepo.db.users)[userId].(
                                          password := crypto.hash(newPassword).value, profilePhoto := "", updatedAt := now)]
                                   else old(userRepo.db.users)
    {
      var found := userRepo.FindByID(userId);
      if found.Failure? {
        return Fail(found.error);
      }
      var hashed := crypto.hash(newPassword);
      if hashed.None? {
        return Fail(HashLibraryError(crypto.hashError(newPassword)));
      }
      var user := found.value.(password := hashed.value);
      r := userRepo.Update(user, now, ok);
    }
  }
}
