/** The account handlers of controllers/userController.js: registration with an
    e-mailed one-time code, e-mail verification, login, account deletion,
    password change, password reset and the profile. The `users` and `otps`
    collections are sequences in storage order. Each handler is a pure step
    from the collections before the request to a response and the collections
    after it; `AccountService` performs the same steps by updating its fields
    in place. bcrypt, the OTP generator, uuid v4, the clock and the mailer are
    parameters: a hash function, the generated code and token, and `now` in
    milliseconds; sending mail has no effect on the collections. */
module Accounts {
  import opened Common
  import opened Store
  import opened JsText

  const VerifyEmailPurpose: string := "verify-email"
  const ResetPasswordPurpose: string := "reset-password"
  /** An OTP older than this many milliseconds is expired (15 minutes). */
  const OtpValidDuration: int := 15 * 60 * 1000
  /** The `expiresIn: "24h"` of the login token, in seconds. */
  const SessionLifetime: nat := 24 * 60 * 60
  const MinPasswordLength: nat := 8

  /** A document of the `users` collection; `password` holds the hash. */
  datatype User = User(id: Id, name: string, email: string, password: string, isEmailVerified: bool)

  /** A document of the `otps` collection. */
  datatype Otp = Otp(id: Id, userId: Id, code: string, otpToken: string, purpose: string, createdAt: int)

  function UserKey(u: User): Id { u.id }
  function OtpKey(o: Otp): Id { o.id }

  /** The `user: { id, name, email }` object of register and login responses. */
  datatype UserView = UserView(id: Id, name: string, email: string)

  /** A user document without its password (`select("-password")`), and the
      user object of the verification response. */
  datatype Profile = Profile(id: Id, name: string, email: string, isEmailVerified: bool)

  /** The claims signed into the login token. There is no role claim. */
  datatype SessionClaims = SessionClaims(userId: Id, email: string)

  /** The payload of a response beyond its message text. */
  datatype Body =
    | Empty
    | Registered(otpToken: string, user: UserView)
    | Verified(profile: Profile)
    | LoggedIn(claims: SessionClaims, expiresIn: nat, user: UserView)
    | OtpIssued(otpToken: string)
    | ShowProfile(profile: Profile)

  datatype Response = Response(status: Status, body: Body)

  datatype Tables = Tables(users: seq<User>, otps: seq<Otp>, nextId: nat)

  datatype Outcome = Outcome(response: Response, tables: Tables)

  function ViewOf(u: User): UserView { UserView(u.id, u.name, u.email) }

  function PublicProfile(u: User): Profile { Profile(u.id, u.name, u.email, u.isEmailVerified) }

  /** A rejection that leaves the collections as they were. */
  function Refuse(t: Tables, status: Status): Outcome { Outcome(Response(status, Empty), t) }

  // ------------------------------------------------------------ queries

  /** `userModel.findOne({ email })`: the first user with the e-mail, if any. */
  function UserByEmail(users: seq<User>, email: string): (r: Option<nat>)
    ensures r.Some? ==> r.value < |users| && users[r.value].email == email
  {
    FindFirst(users, (u: User) => u.email == email)
  }

  /** `userModel.findById(id)`: the first user with the id, if any. */
  function UserById(users: seq<User>, id: Id): (r: Option<nat>)
    ensures r.Some? ==> r.value < |users| && users[r.value].id == id
  {
    FindFirst(users, (u: User) => u.id == id)
  }

  /** `otpModel.findOne({ otpToken, purpose })`: the first OTP with both the
      token and the purpose, if any. */
  function OtpByToken(otps: seq<Otp>, otpToken: string, purpose: string): (r: Option<nat>)
    ensures r.Some? ==> r.value < |otps| && otps[r.value].otpToken == otpToken && otps[r.value].purpose == purpose
  {
    FindFirst(otps, (o: Otp) => o.otpToken == otpToken && o.purpose == purpose)
  }

  /** `otpModel.findByIdAndDelete(id)`: the first OTP with the id is removed,
      the others keep their order; without one nothing changes. */
  function DeleteOtpById(otps: seq<Otp>, id: Id): (r: seq<Otp>)
    ensures (forall j :: 0 <= j < |otps| ==> otps[j].id != id) ==> r == otps
    ensures r == otps || |r| == |otps| - 1
    ensures KeysDistinct(otps, OtpKey) ==> forall k :: 0 <= k < |r| ==> r[k].id != id
  {
    match FindFirst(otps, (o: Otp) => o.id == id)
    case None => otps
    case Some(i) =>
      var r := RemoveAt(otps, i);
      assert KeysDistinct(otps, OtpKey) ==> forall k :: 0 <= k < |r| ==> r[k].id != id by {
        if KeysDistinct(otps, OtpKey) {
          forall k | 0 <= k < |r| ensures r[k].id != id {
            if k < i { assert OtpKey(otps[k]) != OtpKey(otps[i]); }
            else { assert r[k] == otps[k + 1] && OtpKey(otps[i]) != OtpKey(otps[k + 1]); }
          }
        }
      }
      r
  }

  /** `userModel.findByIdAndUpdate(id, { isEmailVerified: true })`: the user
      `findById` finds is marked verified, with every other field and every
      other user as it was. */
  function MarkVerified(users: seq<User>, id: Id): (r: seq<User>)
    ensures |r| == |users|
    ensures UserById(users, id).None? ==> r == users
    ensures UserById(users, id).Some? ==>
      var i := UserById(users, id).value;
      && r[i] == users[i].(isEmailVerified := true)
      && forall k :: 0 <= k < |r| && k != i ==> r[k] == users[k]
    ensures UserById(r, id) == UserById(users, id)
  {
    match UserById(users, id)
    case None => users
    case Some(i) =>
      var r := users[i := users[i].(isEmailVerified := true)];
      FindFirstIs(r, (u: User) => u.id == id, i);
      r
  }

  /** `userModel.findByIdAndUpdate(id, { password })`: the user `findById`
      finds gets the password, with every other field and every other user as
      it was. */
  function StorePassword(users: seq<User>, id: Id, password: string): (r: seq<User>)
    ensures |r| == |users|
    ensures UserById(users, id).None? ==> r == users
    ensures UserById(users, id).Some? ==>
      var i := UserById(users, id).value;
      && r[i] == users[i].(password := password)
      && forall k :: 0 <= k < |r| && k != i ==> r[k] == users[k]
    ensures UserById(r, id) == UserById(users, id)
  {
    match UserById(users, id)
    case None => users
    case Some(i) =>
      var r := users[i := users[i].(password := password)];
      FindFirstIs(r, (u: User) => u.id == id, i);
      r
  }

  // ------------------------------------------------------------ invariant

  ghost predicate HasUser(users: seq<User>, id: Id)
  {
    exists k :: 0 <= k < |users| && users[k].id == id
  }

  /** Every OTP belongs to a stored user. */
  ghost predicate OwnersExist(users: seq<User>, otps: seq<Otp>)
  {
    forall i :: 0 <= i < |otps| ==> HasUser(users, otps[i].userId)
  }

  /** The collections as the handlers leave them: `_id`s are distinct and were
      handed out before `nextId`, and no OTP outlives its user. */
  ghost predicate WellFormed(t: Tables)
  {
    && KeysDistinct(t.users, UserKey) && KeysBelow(t.users, UserKey, t.nextId)
    && KeysDistinct(t.otps, OtpKey) && KeysBelow(t.otps, OtpKey, t.nextId)
    && OwnersExist(t.users, t.otps)
  }

  /** No two OTPs of the purpose share a token (as v4 uuids do not). */
  ghost predicate TokensUnique(otps: seq<Otp>, purpose: string)
  {
    forall a, b :: 0 <= a < b < |otps| && otps[a].purpose == purpose && otps[b].purpose == purpose ==>
      otps[a].otpToken != otps[b].otpToken
  }

  /** No two users share an e-mail address. */
  ghost predicate EmailsDistinct(users: seq<User>)
  {
    forall i, j :: 0 <= i < j < |users| ==> users[i].email != users[j].email
  }

  // ------------------------------------------------------------ handlers

  /** `register`: 409 when the e-mail is taken; otherwise a new unverified user
      with the hashed password and a "verify-email" OTP for it, and 201 with
      the OTP token. */
  function RegisterStep(t: Tables, name: string, email: string, password: string, hash: string -> string,
                        code: string, otpToken: string, now: int): (r: Outcome)
    ensures r.response.status == Conflict <==> UserByEmail(t.users, email).Some?
    ensures r.response.status == Conflict ==> r.tables == t
    ensures r.response.status != Conflict ==>
      && r.response == Response(Created, Registered(otpToken, UserView(t.nextId, name, email)))
      && r.tables.users == t.users + [User(t.nextId, name, email, hash(password), false)]
      && r.tables.otps == t.otps + [Otp(t.nextId + 1, t.nextId, code, otpToken, VerifyEmailPurpose, now)]
  {
    if UserByEmail(t.users, email).Some? then Refuse(t, Conflict)
    else
      var user := User(t.nextId, name, email, hash(password), false);
      var otp := Otp(t.nextId + 1, user.id, code, otpToken, VerifyEmailPurpose, now);
      Outcome(Response(Created, Registered(otpToken, ViewOf(user))),
              Tables(t.users + [user], t.otps + [otp], t.nextId + 2))
  }

  /** `verify`: 422 for another purpose, 404 when no OTP has the token and
      purpose, 410 (deleting the OTP) when it is older than the valid
      duration, 406 for a wrong code; otherwise the user is marked verified and
      the OTP deleted. */
  function VerifyStep(t: Tables, otp: string, otpToken: string, purpose: string, now: int): (r: Outcome)
    ensures
      || r.response.status == UnprocessableEntity
      || r.response.status == NotFound
      || r.response.status == Gone
      || r.response.status == NotAcceptable
      || r.response.status == Ok
      || r.response.status == InternalServerError
    ensures purpose != VerifyEmailPurpose <==> r.response.status == UnprocessableEntity
    ensures r.response.status == NotFound <==>
      purpose == VerifyEmailPurpose && OtpByToken(t.otps, otpToken, purpose).None?
    ensures (|| r.response.status == UnprocessableEntity || r.response.status == NotFound
             || r.response.status == NotAcceptable) ==> r.tables == t
    ensures r.response.status != UnprocessableEntity && r.response.status != NotFound ==>
      var i := OtpByToken(t.otps, otpToken, purpose).value;
      && (r.response.status == Gone <==> now - t.otps[i].createdAt > OtpValidDuration)
      && (r.response.status == NotAcceptable <==>
            now - t.otps[i].createdAt <= OtpValidDuration && otp != t.otps[i].code)
      && (r.response.status == Gone ==> r.tables == t.(otps := DeleteOtpById(t.otps, t.otps[i].id)))
      && ((r.response.status == Ok || r.response.status == InternalServerError) ==>
            r.tables == t.(users := MarkVerified(t.users, t.otps[i].userId),
                           otps := DeleteOtpById(t.otps, t.otps[i].id)))
      && (r.response.status == Ok <==>
            && now - t.otps[i].createdAt <= OtpValidDuration && otp == t.otps[i].code
            && UserById(t.users, t.otps[i].userId).Some?)
  {
    if purpose != VerifyEmailPurpose then Refuse(t, UnprocessableEntity)
    else match OtpByToken(t.otps, otpToken, purpose)
      case None => Refuse(t, NotFound)
      case Some(i) => VerifyFound(t, otp, i, now)
  }

  /** The rest of `verify` once the OTP at position i is found: 410 (deleting
      it) when expired, 406 for a wrong code, otherwise its owner is marked
      verified and the OTP deleted. */
  function VerifyFound(t: Tables, otp: string, i: nat, now: int): (r: Outcome)
    requires i < |t.otps|
    ensures
      || r.response.status == Gone
      || r.response.status == NotAcceptable
      || r.response.status == Ok
      || r.response.status == InternalServerError
    ensures r.response.status == Gone <==> now - t.otps[i].createdAt > OtpValidDuration
    ensures r.response.status == NotAcceptable <==>
      now - t.otps[i].createdAt <= OtpValidDuration && otp != t.otps[i].code
    ensures r.response.status == NotAcceptable ==> r.tables == t
    ensures r.response.status == Gone ==> r.tables == t.(otps := DeleteOtpById(t.otps, t.otps[i].id))
    ensures (r.response.status == Ok || r.response.status == InternalServerError) ==>
      r.tables == t.(users := MarkVerified(t.users, t.otps[i].userId),
                     otps := DeleteOtpById(t.otps, t.otps[i].id))
    ensures r.response.status == Ok <==>
      && now - t.otps[i].createdAt <= OtpValidDuration && otp == t.otps[i].code
      && UserById(t.users, t.otps[i].userId).Some?
  {
    var record := t.otps[i];
    if now - record.createdAt > OtpValidDuration then
      Outcome(Response(Gone, Empty), t.(otps := DeleteOtpById(t.otps, record.id)))
    else if otp != record.code then Refuse(t, NotAcceptable)
    else
      var users := MarkVerified(t.users, record.userId);
      Outcome(VerifiedResponse(users, record.userId),
              t.(users := users, otps := DeleteOtpById(t.otps, record.id)))
  }

  /** The answer once the user is marked verified: the updated user, or 500
      when `findByIdAndUpdate` found none and `verifiedUser._id` throws on
      null (the OTP is already gone by then). */
  function VerifiedResponse(users: seq<User>, id: Id): (r: Response)
    ensures r.status == Ok <==> UserById(users, id).Some?
    ensures r.status != Ok ==> r == Response(InternalServerError, Empty)
    ensures r.status == Ok ==> r.body == Verified(PublicProfile(users[UserById(users, id).value]))
  {
    match UserById(users, id)
    case None => Response(InternalServerError, Empty)
    case Some(j) => Response(Ok, Verified(PublicProfile(users[j])))
  }

  /** `login`: 404 for an unknown e-mail, then 401 for a wrong password, then
      403 while the e-mail is unverified; otherwise a 24-hour token whose claims
      are the user's id and e-mail. Nothing is stored. */
  function Login(t: Tables, email: string, password: string, hash: string -> string): (r: Response)
    ensures r.status == NotFound <==> UserByEmail(t.users, email).None?
    ensures UserByEmail(t.users, email).Some? ==>
      var u := t.users[UserByEmail(t.users, email).value];
      && (r.status == Unauthorized <==> hash(password) != u.password)
      && (r.status == Forbidden <==> hash(password) == u.password && !u.isEmailVerified)
      && (r.status == Ok <==> hash(password) == u.password && u.isEmailVerified)
      && (r.status == Ok ==> r.body == LoggedIn(SessionClaims(u.id, u.email), SessionLifetime, ViewOf(u)))
  {
    match UserByEmail(t.users, email)
    case None => Response(NotFound, Empty)
    case Some(i) =>
      var u := t.users[i];
      if hash(password) != u.password then Response(Unauthorized, Empty)
      else if !u.isEmailVerified then Response(Forbidden, Empty)
      else Response(Ok, LoggedIn(SessionClaims(u.id, u.email), SessionLifetime, ViewOf(u)))
  }

  /** `deleteUser`: 404 for an unknown caller, 401 for a wrong password;
      otherwise the caller's document and every OTP of theirs are deleted. */
  function DeleteUserStep(t: Tables, caller: Id, password: string, hash: string -> string): (r: Outcome)
    ensures
      || r.response.status == NotFound
      || r.response.status == Unauthorized
      || r.response.status == Ok
    ensures r.response.status == NotFound <==> UserById(t.users, caller).None?
    ensures r.response.status == Unauthorized <==>
      UserById(t.users, caller).Some? && hash(password) != t.users[UserById(t.users, caller).value].password
    ensures r.response.status == Ok <==>
      UserById(t.users, caller).Some? && hash(password) == t.users[UserById(t.users, caller).value].password
    ensures r.response.status != Ok ==> r.tables == t
    ensures r.response.status == Ok ==>
      && r.tables.users == RemoveAt(t.users, UserById(t.users, caller).value)
      && (forall k :: 0 <= k < |r.tables.otps| ==> r.tables.otps[k].userId != caller)
      && (forall k :: 0 <= k < |t.otps| && t.otps[k].userId != caller ==> t.otps[k] in r.tables.otps)
      && (forall k :: 0 <= k < |r.tables.otps| ==> r.tables.otps[k] in t.otps)
  {
    match UserById(t.users, caller)
    case None => Refuse(t, NotFound)
    case Some(i) =>
      if hash(password) != t.users[i].password then Refuse(t, Unauthorized)
      else
        // findByIdAndDelete(userId) removes the document findById returned
        SelectMembers(t.otps, (o: Otp) => o.userId != caller);
        Outcome(Response(Ok, Empty),
                t.(users := RemoveAt(t.users, i), otps := Select(t.otps, (o: Otp) => o.userId != caller)))
  }

  /** Both passwords are given, non-empty, and the new one has at least 8
      characters: the checks `updatePassword` makes before any lookup. */
  predicate PasswordsGiven(oldPassword: Option<string>, newPassword: Option<string>)
  {
    Present(oldPassword) && Present(newPassword) && |newPassword.value| >= MinPasswordLength
  }

  /** `updatePassword`: 400 when either field is missing or empty, and 400
      when the new password is shorter than 8 characters, both before any
      lookup; 404 for an unknown caller, 401 for a wrong old password;
      otherwise the stored hash is replaced. */
  function UpdatePasswordStep(t: Tables, caller: Id, oldPassword: Option<string>, newPassword: Option<string>,
                              hash: string -> string): (r: Outcome)
    ensures
      || r.response.status == BadRequest
      || r.response.status == NotFound
      || r.response.status == Unauthorized
      || r.response.status == Ok
    ensures r.response.status == BadRequest <==> !PasswordsGiven(oldPassword, newPassword)
    ensures r.response.status == NotFound <==>
      PasswordsGiven(oldPassword, newPassword) && UserById(t.users, caller).None?
    ensures r.response.status == Unauthorized <==>
      && PasswordsGiven(oldPassword, newPassword) && UserById(t.users, caller).Some?
      && hash(oldPassword.value) != t.users[UserById(t.users, caller).value].password
    ensures r.response.status == Ok <==>
      && PasswordsGiven(oldPassword, newPassword) && UserById(t.users, caller).Some?
      && hash(oldPassword.value) == t.users[UserById(t.users, caller).value].password
    ensures r.response.status != Ok ==> r.tables == t
    ensures r.response.status == Ok ==>
      var i := UserById(t.users, caller).value;
      r.tables == t.(users := t.users[i := t.users[i].(password := hash(newPassword.value))])
  {
    if !Present(oldPassword) || !Present(newPassword) then Refuse(t, BadRequest)
    else if |newPassword.value| < MinPasswordLength then Refuse(t, BadRequest)
    else match UserById(t.users, caller)
      case None => Refuse(t, NotFound)
      case Some(i) =>
        if hash(oldPassword.value) != t.users[i].password then Refuse(t, Unauthorized)
        else Outcome(Response(Ok, Empty), t.(users := t.users[i := t.users[i].(password := hash(newPassword.value))]))
  }

  /** `forgotPassword`: 404 for an unknown e-mail; otherwise a "reset-password"
      OTP for that user and the OTP token in the response. */
  function ForgotPasswordStep(t: Tables, email: string, code: string, otpToken: string, now: int): (r: Outcome)
    ensures r.response.status == NotFound <==> UserByEmail(t.users, email).None?
    ensures r.response.status == NotFound ==> r.tables == t
    ensures r.response.status != NotFound ==>
      && r.response == Response(Ok, OtpIssued(otpToken))
      && r.tables.users == t.users
      && r.tables.otps == t.otps + [Otp(t.nextId, t.users[UserByEmail(t.users, email).value].id, code, otpToken,
                                        ResetPasswordPurpose, now)]
  {
    match UserByEmail(t.users, email)
    case None => Refuse(t, NotFound)
    case Some(i) =>
      var otp := Otp(t.nextId, t.users[i].id, code, otpToken, ResetPasswordPurpose, now);
      Outcome(Response(Ok, OtpIssued(otpToken)), Tables(t.users, t.otps + [otp], t.nextId + 1))
  }

  /** `resetPassword`: 404 when no "reset-password" OTP has the token, 406 for
      a wrong code; otherwise the owner's hash is replaced and the OTP deleted.
      The OTP's age and the new password's length are not checked. */
  function ResetPasswordStep(t: Tables, otp: string, otpToken: string, newPassword: string,
                             hash: string -> string): (r: Outcome)
    ensures
      || r.response.status == NotFound
      || r.response.status == NotAcceptable
      || r.response.status == Ok
    ensures r.response.status == NotFound <==> OtpByToken(t.otps, otpToken, ResetPasswordPurpose).None?
    ensures r.response.status == NotAcceptable <==>
      OtpByToken(t.otps, otpToken, ResetPasswordPurpose).Some?
      && otp != t.otps[OtpByToken(t.otps, otpToken, ResetPasswordPurpose).value].code
    ensures r.response.status == Ok <==>
      OtpByToken(t.otps, otpToken, ResetPasswordPurpose).Some?
      && otp == t.otps[OtpByToken(t.otps, otpToken, ResetPasswordPurpose).value].code
    ensures r.response.status != Ok ==> r.tables == t
    ensures r.response.status == Ok ==>
      var i := OtpByToken(t.otps, otpToken, ResetPasswordPurpose).value;
      r.tables == t.(users := StorePassword(t.users, t.otps[i].userId, hash(newPassword)),
                        otps := DeleteOtpById(t.otps, t.otps[i].id))
  {
    match OtpByToken(t.otps, otpToken, ResetPasswordPurpose)
    case None => Refuse(t, NotFound)
    case Some(i) =>
      var record := t.otps[i];
      if otp != record.code then Refuse(t, NotAcceptable)
      else Outcome(Response(Ok, Empty),
                   t.(users := StorePassword(t.users, record.userId, hash(newPassword)),
                      otps := DeleteOtpById(t.otps, record.id)))
  }

  /** `getProfile`: 404 for an unknown caller, otherwise the caller's document
      without the password hash. */
  function GetProfile(t: Tables, caller: Id): (r: Response)
    ensures r.status == NotFound <==> UserById(t.users, caller).None?
    ensures r.status != NotFound ==>
      var u := t.users[UserById(t.users, caller).value];
      r == Response(Ok, ShowProfile(Profile(caller, u.name, u.email, u.isEmailVerified)))
  {
    match UserById(t.users, caller)
    case None => Response(NotFound, Empty)
    case Some(i) => Response(Ok, ShowProfile(PublicProfile(t.users[i])))
  }

  /** A non-empty new e-mail already belongs to a user other than the caller. */
  predicate EmailTaken(users: seq<User>, caller: Id, email: Option<string>)
  {
    && Present(email) && UserByEmail(users, email.value).Some?
    && users[UserByEmail(users, email.value).value].id != caller
  }

  /** `updateProfile`: 400 when a non-empty new e-mail is already another
      user's, then 404 for an unknown caller; otherwise the fields present in
      the body overwrite the caller's. */
  function UpdateProfileStep(t: Tables, caller: Id, name: Option<string>, email: Option<string>): (r: Outcome)
    ensures
      || r.response.status == BadRequest
      || r.response.status == NotFound
      || r.response.status == Ok
    ensures r.response.status == BadRequest <==> EmailTaken(t.users, caller, email)
    ensures r.response.status == NotFound <==> !EmailTaken(t.users, caller, email) && UserById(t.users, caller).None?
    ensures r.response.status == Ok <==> !EmailTaken(t.users, caller, email) && UserById(t.users, caller).Some?
    ensures r.response.status != Ok ==> r.tables == t
    ensures r.response.status == Ok ==>
      var i := UserById(t.users, caller).value;
      var u := t.users[i].(name := KeepUnless(name, t.users[i].name), email := KeepUnless(email, t.users[i].email));
      && r.tables == t.(users := t.users[i := u])
      && r.response.body == ShowProfile(PublicProfile(u))
  {
    if EmailTaken(t.users, caller, email) then Refuse(t, BadRequest)
    else match UserById(t.users, caller)
      case None => Refuse(t, NotFound)
      case Some(i) =>
        var u := t.users[i].(name := KeepUnless(name, t.users[i].name), email := KeepUnless(email, t.users[i].email));
        Outcome(Response(Ok, ShowProfile(PublicProfile(u))), t.(users := t.users[i := u]))
  }

  // ------------------------------------------------------------ lookups under the invariant

  /** With distinct ids, `findById` of a stored user's id finds that user. */
  lemma UserAt(users: seq<User>, i: nat)
    requires KeysDistinct(users, UserKey) && i < |users|
    ensures UserById(users, users[i].id) == Some(i)
  {
    FindKeyAt(users, UserKey, i, (u: User) => u.id == users[i].id);
  }

  /** With distinct ids, `findByIdAndDelete` of a found OTP's id deletes that OTP. */
  lemma OtpAt(otps: seq<Otp>, i: nat)
    requires KeysDistinct(otps, OtpKey) && i < |otps|
    ensures DeleteOtpById(otps, otps[i].id) == RemoveAt(otps, i)
  {
    FindKeyAt(otps, OtpKey, i, (o: Otp) => o.id == otps[i].id);
  }

  lemma HasUserFound(users: seq<User>, id: Id)
    ensures HasUser(users, id) <==> UserById(users, id).Some?
  {
    if HasUser(users, id) {
      var k :| 0 <= k < |users| && users[k].id == id;
      assert ((u: User) => u.id == id)(users[k]);
    }
  }

  // ------------------------------------------------------------ the invariant is kept

  /** Users whose ids are position by position those of a well-formed
      collection keep the invariant. */
  lemma SameIdsKeep(t: Tables, users: seq<User>)
    requires WellFormed(t) && |users| == |t.users|
    requires forall k :: 0 <= k < |users| ==> users[k].id == t.users[k].id
    ensures WellFormed(t.(users := users))
  {
    assert forall k :: 0 <= k < |users| ==> UserKey(users[k]) == UserKey(t.users[k]);
    forall i | 0 <= i < |t.otps| ensures HasUser(users, t.otps[i].userId) {
      var k :| 0 <= k < |t.users| && t.users[k].id == t.otps[i].userId;
      assert users[k].id == t.otps[i].userId;
    }
  }

  /** Keeping only some of the OTPs keeps the invariant. */
  lemma FewerOtpsKeep(t: Tables, otps: seq<Otp>)
    requires WellFormed(t)
    requires forall k :: 0 <= k < |otps| ==> otps[k] in t.otps
    requires KeysDistinct(otps, OtpKey)
    ensures WellFormed(t.(otps := otps))
  {
    forall k | 0 <= k < |otps| ensures OtpKey(otps[k]) < t.nextId && HasUser(t.users, otps[k].userId) {
      var m :| 0 <= m < |t.otps| && t.otps[m] == otps[k];
    }
  }

  lemma DeleteOtpByIdKeeps(t: Tables, id: Id)
    requires WellFormed(t)
    ensures WellFormed(t.(otps := DeleteOtpById(t.otps, id)))
  {
    match FindFirst(t.otps, (o: Otp) => o.id == id)
    case None =>
    case Some(i) =>
      RemoveAtKeepsKeys(t.otps, OtpKey, i, t.nextId);
      FewerOtpsKeep(t, RemoveAt(t.otps, i));
  }

  lemma MarkVerifiedKeeps(t: Tables, id: Id)
    requires WellFormed(t)
    ensures WellFormed(t.(users := MarkVerified(t.users, id)))
  {
    SameIdsKeep(t, MarkVerified(t.users, id));
  }

  lemma StorePasswordKeeps(t: Tables, id: Id, password: string)
    requires WellFormed(t)
    ensures WellFormed(t.(users := StorePassword(t.users, id, password)))
  {
    SameIdsKeep(t, StorePassword(t.users, id, password));
  }

  lemma RegisterKeepsWellFormed(t: Tables, name: string, email: string, password: string, hash: string -> string,
                                code: string, otpToken: string, now: int)
    requires WellFormed(t)
    ensures WellFormed(RegisterStep(t, name, email, password, hash, code, otpToken, now).tables)
  {
    var r := RegisterStep(t, name, email, password, hash, code, otpToken, now);
    if r.response.status != Conflict {
      var user := User(t.nextId, name, email, hash(password), false);
      var otp := Otp(t.nextId + 1, t.nextId, code, otpToken, VerifyEmailPurpose, now);
      AppendFreshKey(t.users, UserKey, user, t.nextId);
      AppendFreshKey(t.otps, OtpKey, otp, t.nextId);
      var users := t.users + [user];
      var otps := t.otps + [otp];
      forall i | 0 <= i < |otps| ensures HasUser(users, otps[i].userId) {
        if i == |t.otps| {
          assert users[|t.users|].id == otps[i].userId;
        } else {
          var k :| 0 <= k < |t.users| && t.users[k].id == t.otps[i].userId;
          assert users[k].id == otps[i].userId;
        }
      }
      assert r.tables == Tables(users, otps, t.nextId + 2);
    }
  }

  lemma VerifyKeepsWellFormed(t: Tables, otp: string, otpToken: string, purpose: string, now: int)
    requires WellFormed(t)
    ensures WellFormed(VerifyStep(t, otp, otpToken, purpose, now).tables)
  {
    if purpose == VerifyEmailPurpose && OtpByToken(t.otps, otpToken, purpose).Some? {
      var record := t.otps[OtpByToken(t.otps, otpToken, purpose).value];
      var r := VerifyStep(t, otp, otpToken, purpose, now);
      if now - record.createdAt > OtpValidDuration {
        DeleteOtpByIdKeeps(t, record.id);
        assert r.tables == t.(otps := DeleteOtpById(t.otps, record.id));
      } else if otp == record.code {
        MarkVerifiedKeeps(t, record.userId);
        var t1 := t.(users := MarkVerified(t.users, record.userId));
        DeleteOtpByIdKeeps(t1, record.id);
        assert r.tables == t1.(otps := DeleteOtpById(t1.otps, record.id));
      }
    }
  }

  /** Removing a user together with every OTP of theirs leaves each remaining
      OTP with its owner. */
  lemma RemoveOwnerKeepsOwners(users: seq<User>, otps: seq<Otp>, i: nat)
    requires i < |users| && OwnersExist(users, otps)
    ensures OwnersExist(RemoveAt(users, i), Select(otps, (o: Otp) => o.userId != users[i].id))
  {
    var keep := (o: Otp) => o.userId != users[i].id;
    var rest := RemoveAt(users, i);
    var kept := Select(otps, keep);
    SelectMembers(otps, keep);
    forall m | 0 <= m < |kept| ensures HasUser(rest, kept[m].userId) {
      var o := kept[m];
      assert o in otps && keep(o);
      var n :| 0 <= n < |otps| && otps[n] == o;
      var k :| 0 <= k < |users| && users[k].id == o.userId;
      var k' := if k < i then k else k - 1;
      assert rest[k'] == users[k];
    }
  }

  lemma DeleteUserKeepsWellFormed(t: Tables, caller: Id, password: string, hash: string -> string)
    requires WellFormed(t)
    ensures WellFormed(DeleteUserStep(t, caller, password, hash).tables)
  {
    var r := DeleteUserStep(t, caller, password, hash);
    if r.response.status == Ok {
      var i := UserById(t.users, caller).value;
      var keep := (o: Otp) => o.userId != caller;
      RemoveAtKeepsKeys(t.users, UserKey, i, t.nextId);
      SelectKeepsKeysDistinct(t.otps, OtpKey, keep);
      SelectKeepsKeysBelow(t.otps, OtpKey, keep, t.nextId);
      RemoveOwnerKeepsOwners(t.users, t.otps, i);
      assert r.tables == t.(users := RemoveAt(t.users, i), otps := Select(t.otps, keep));
    }
  }

  lemma UpdatePasswordKeepsWellFormed(t: Tables, caller: Id, oldPassword: Option<string>,
                                      newPassword: Option<string>, hash: string -> string)
    requires WellFormed(t)
    ensures WellFormed(UpdatePasswordStep(t, caller, oldPassword, newPassword, hash).tables)
  {
    var r := UpdatePasswordStep(t, caller, oldPassword, newPassword, hash);
    if r.response.status == Ok {
      SameIdsKeep(t, r.tables.users);
    }
  }

  lemma ForgotPasswordKeepsWellFormed(t: Tables, email: string, code: string, otpToken: string, now: int)
    requires WellFormed(t)
    ensures WellFormed(ForgotPasswordStep(t, email, code, otpToken, now).tables)
  {
    var r := ForgotPasswordStep(t, email, code, otpToken, now);
    if r.response.status != NotFound {
      var i := UserByEmail(t.users, email).value;
      var otp := Otp(t.nextId, t.users[i].id, code, otpToken, ResetPasswordPurpose, now);
      AppendFreshKey(t.otps, OtpKey, otp, t.nextId);
      var otps := t.otps + [otp];
      forall m | 0 <= m < |otps| ensures HasUser(t.users, otps[m].userId) {
        if m < |t.otps| { assert otps[m] == t.otps[m]; }
      }
      assert r.tables == Tables(t.users, otps, t.nextId + 1);
    }
  }

  lemma ResetPasswordKeepsWellFormed(t: Tables, otp: string, otpToken: string, newPassword: string,
                                     hash: string -> string)
    requires WellFormed(t)
    ensures WellFormed(ResetPasswordStep(t, otp, otpToken, newPassword, hash).tables)
  {
    var found := OtpByToken(t.otps, otpToken, ResetPasswordPurpose);
    if found.Some? {
      var record := t.otps[found.value];
      StorePasswordKeeps(t, record.userId, hash(newPassword));
      var t1 := t.(users := StorePassword(t.users, record.userId, hash(newPassword)));
      DeleteOtpByIdKeeps(t1, record.id);
    }
  }

  lemma UpdateProfileKeepsWellFormed(t: Tables, caller: Id, name: Option<string>, email: Option<string>)
    requires WellFormed(t)
    ensures WellFormed(UpdateProfileStep(t, caller, name, email).tables)
  {
    var r := UpdateProfileStep(t, caller, name, email);
    if r.response.status == Ok {
      SameIdsKeep(t, r.tables.users);
    }
  }

  // ------------------------------------------------------------ e-mail verification

  /** A pending verification OTP found at position i: an age of exactly the
      valid duration is still accepted, one millisecond more deletes the OTP
      and answers 410, and a wrong code within the window keeps it. */
  lemma VerifyExpiryBoundary(t: Tables, otp: string, otpToken: string, i: nat)
    requires WellFormed(t)
    requires OtpByToken(t.otps, otpToken, VerifyEmailPurpose) == Some(i)
    ensures var created := t.otps[i].createdAt;
      VerifyStep(t, otp, otpToken, VerifyEmailPurpose, created + OtpValidDuration).response.status != Gone
    ensures var r := VerifyStep(t, otp, otpToken, VerifyEmailPurpose, t.otps[i].createdAt + OtpValidDuration + 1);
      r.response.status == Gone && r.tables == t.(otps := RemoveAt(t.otps, i))
  {
    OtpAt(t.otps, i);
  }

  /** The right code within the window marks the owner verified, answers with
      the owner's profile and deletes exactly that OTP. */
  lemma VerifySucceeds(t: Tables, otp: string, otpToken: string, now: int, i: nat)
    requires WellFormed(t)
    requires OtpByToken(t.otps, otpToken, VerifyEmailPurpose) == Some(i)
    requires now - t.otps[i].createdAt <= OtpValidDuration && otp == t.otps[i].code
    ensures var r := VerifyStep(t, otp, otpToken, VerifyEmailPurpose, now);
      var j := UserById(t.users, t.otps[i].userId).value;
      && UserById(t.users, t.otps[i].userId).Some?
      && r.response == Response(Ok, Verified(PublicProfile(t.users[j].(isEmailVerified := true))))
      && r.tables == t.(users := t.users[j := t.users[j].(isEmailVerified := true)], otps := RemoveAt(t.otps, i))
  {
    var owner := t.otps[i].userId;
    HasUserFound(t.users, owner);
    var j := UserById(t.users, owner).value;
    var users := MarkVerified(t.users, owner);
    assert users == t.users[j := t.users[j].(isEmailVerified := true)];
    SameIdsKeep(t, users);
    UserAt(users, j);
    OtpAt(t.otps, i);
  }

  /** A successful verification cannot be replayed: when the token was the
      only pending one with that value, the same request again is 404. */
  lemma VerifyReplayNotFound(t: Tables, otp: string, otpToken: string, now: int, later: int)
    requires WellFormed(t)
    requires TokensUnique(t.otps, VerifyEmailPurpose)
    requires VerifyStep(t, otp, otpToken, VerifyEmailPurpose, now).response.status == Ok
    ensures var t1 := VerifyStep(t, otp, otpToken, VerifyEmailPurpose, now).tables;
      VerifyStep(t1, otp, otpToken, VerifyEmailPurpose, later) == Refuse(t1, NotFound)
  {
    var i := OtpByToken(t.otps, otpToken, VerifyEmailPurpose).value;
    VerifySucceeds(t, otp, otpToken, now, i);
    var rest := RemoveAt(t.otps, i);
    assert t.otps[i].otpToken == otpToken && t.otps[i].purpose == VerifyEmailPurpose;
    forall k | 0 <= k < |rest| ensures !(rest[k].otpToken == otpToken && rest[k].purpose == VerifyEmailPurpose) {
      var k' := if k < i then k else k + 1;
      assert rest[k] == t.otps[k'];
      assert k' < i || i < k';
    }
  }

  /** `verify` only ever deletes a "verify-email" OTP: every OTP with another
      purpose survives it. */
  lemma VerifyKeepsOtherPurposes(t: Tables, otp: string, otpToken: string, purpose: string, now: int)
    requires WellFormed(t)
    ensures var r := VerifyStep(t, otp, otpToken, purpose, now);
      forall k :: 0 <= k < |t.otps| && t.otps[k].purpose != VerifyEmailPurpose ==> t.otps[k] in r.tables.otps
  {
    var r := VerifyStep(t, otp, otpToken, purpose, now);
    if purpose == VerifyEmailPurpose && OtpByToken(t.otps, otpToken, purpose).Some? {
      var i := OtpByToken(t.otps, otpToken, purpose).value;
      OtpAt(t.otps, i);
      forall k | 0 <= k < |t.otps| && t.otps[k].purpose != VerifyEmailPurpose ensures t.otps[k] in r.tables.otps {
        assert k != i;
        var rest := RemoveAt(t.otps, i);
        var k' := if k < i then k else k - 1;
        assert rest[k'] == t.otps[k];
      }
    }
  }

  // ------------------------------------------------------------ registration and login

  /** Registration, then verification with the mailed code within the window,
      then login: right after registering the login is 403 (unverified); after
      verifying it is 200 with the new user's id and e-mail as claims. The
      OTP token is assumed fresh, as a v4 uuid is. */
  lemma RegistrationFlow(t: Tables, name: string, email: string, password: string, hash: string -> string,
                         code: string, otpToken: string, now: int, later: int)
    requires WellFormed(t)
    requires OtpByToken(t.otps, otpToken, VerifyEmailPurpose).None?
    requires later - now <= OtpValidDuration
    requires RegisterStep(t, name, email, password, hash, code, otpToken, now).response.status == Created
    ensures var t1 := RegisterStep(t, name, email, password, hash, code, otpToken, now).tables;
      Login(t1, email, password, hash).status == Forbidden
    ensures var t1 := RegisterStep(t, name, email, password, hash, code, otpToken, now).tables;
      var r2 := VerifyStep(t1, code, otpToken, VerifyEmailPurpose, later);
      && r2.response.status == Ok
      && Login(r2.tables, email, password, hash)
         == Response(Ok, LoggedIn(SessionClaims(t.nextId, email), SessionLifetime, UserView(t.nextId, name, email)))
  {
    var t1 := RegisterStep(t, name, email, password, hash, code, otpToken, now).tables;
    var n := |t.users|;
    RegisteredUserFound(t, name, email, password, hash, code, otpToken, now);
    RegisteredOtpFound(t, name, email, password, hash, code, otpToken, now);
    RegisterKeepsWellFormed(t, name, email, password, hash, code, otpToken, now);
    UserAt(t1.users, n);
    VerifySucceeds(t1, code, otpToken, later, |t.otps|);
    var users2 := t1.users[n := t1.users[n].(isEmailVerified := true)];
    LookupAfterUpdate(t1.users, email, n, users2[n]);
  }

  /** After a registration the new user is the last one, and it is the user
      `findOne({ email })` returns. */
  lemma RegisteredUserFound(t: Tables, name: string, email: string, password: string, hash: string -> string,
                            code: string, otpToken: string, now: int)
    requires RegisterStep(t, name, email, password, hash, code, otpToken, now).response.status == Created
    ensures var t1 := RegisterStep(t, name, email, password, hash, code, otpToken, now).tables;
      && |t1.users| == |t.users| + 1
      && t1.users[|t.users|] == User(t.nextId, name, email, hash(password), false)
      && UserByEmail(t1.users, email) == Some(|t.users|)
  {
    var t1 := RegisterStep(t, name, email, password, hash, code, otpToken, now).tables;
    assert t1.users == t.users + [User(t.nextId, name, email, hash(password), false)];
    FindFirstIs(t1.users, (u: User) => u.email == email, |t.users|);
  }

  /** After a registration with a fresh token the new OTP is the last one, it
      belongs to the new user, and the verification lookup finds it. */
  lemma RegisteredOtpFound(t: Tables, name: string, email: string, password: string, hash: string -> string,
                           code: string, otpToken: string, now: int)
    requires OtpByToken(t.otps, otpToken, VerifyEmailPurpose).None?
    requires RegisterStep(t, name, email, password, hash, code, otpToken, now).response.status == Created
    ensures var t1 := RegisterStep(t, name, email, password, hash, code, otpToken, now).tables;
      && |t1.otps| == |t.otps| + 1
      && t1.otps[|t.otps|] == Otp(t.nextId + 1, t.nextId, code, otpToken, VerifyEmailPurpose, now)
      && OtpByToken(t1.otps, otpToken, VerifyEmailPurpose) == Some(|t.otps|)
  {
    var t1 := RegisterStep(t, name, email, password, hash, code, otpToken, now).tables;
    assert t1.otps == t.otps + [Otp(t.nextId + 1, t.nextId, code, otpToken, VerifyEmailPurpose, now)];
    FindFirstIs(t1.otps, (o: Otp) => o.otpToken == otpToken && o.purpose == VerifyEmailPurpose, |t.otps|);
  }

  /** Replacing the user at the first position with a given e-mail by a user
      with the same e-mail keeps that position first. */
  lemma LookupAfterUpdate(users: seq<User>, email: string, n: nat, u: User)
    requires UserByEmail(users, email) == Some(n) && u.email == email
    ensures UserByEmail(users[n := u], email) == Some(n)
  {
    FindFirstIs(users[n := u], (v: User) => v.email == email, n);
  }

  /** After a successful password change the new password passes login's
      password check and an old password with a different hash fails it. */
  lemma PasswordChangeTakesEffect(t: Tables, caller: Id, oldPassword: Option<string>, newPassword: Option<string>,
                                  hash: string -> string)
    requires WellFormed(t) && EmailsDistinct(t.users)
    requires UpdatePasswordStep(t, caller, oldPassword, newPassword, hash).response.status == Ok
    ensures var t1 := UpdatePasswordStep(t, caller, oldPassword, newPassword, hash).tables;
      var u := t.users[UserById(t.users, caller).value];
      && Login(t1, u.email, newPassword.value, hash).status !in [NotFound, Unauthorized]
      && (hash(oldPassword.value) != hash(newPassword.value) ==>
            Login(t1, u.email, oldPassword.value, hash).status == Unauthorized)
  {
    var t1 := UpdatePasswordStep(t, caller, oldPassword, newPassword, hash).tables;
    var i := UserById(t.users, caller).value;
    FindFirstIs(t1.users, (u: User) => u.email == t.users[i].email, i);
  }

  // ------------------------------------------------------------ password reset

  /** A forgotten-password request followed by a reset with the mailed code
      succeeds whatever time has passed and whatever the new password's
      length: the user's hash becomes that of the new password and the OTP
      collection is back to what it was. The token is assumed fresh. */
  lemma ResetFlow(t: Tables, email: string, code: string, otpToken: string, now: int,
                  newPassword: string, hash: string -> string)
    requires WellFormed(t)
    requires OtpByToken(t.otps, otpToken, ResetPasswordPurpose).None?
    requires ForgotPasswordStep(t, email, code, otpToken, now).response.status == Ok
    ensures var t1 := ForgotPasswordStep(t, email, code, otpToken, now).tables;
      var r2 := ResetPasswordStep(t1, code, otpToken, newPassword, hash);
      var i := UserByEmail(t.users, email).value;
      && r2.response.status == Ok
      && r2.tables == t.(users := t.users[i := t.users[i].(password := hash(newPassword))], nextId := t.nextId + 1)
  {
    var t1 := ForgotPasswordStep(t, email, code, otpToken, now).tables;
    var i := UserByEmail(t.users, email).value;
    ForgotPasswordKeepsWellFormed(t, email, code, otpToken, now);
    FindFirstIs(t1.otps, (o: Otp) => o.otpToken == otpToken && o.purpose == ResetPasswordPurpose, |t.otps|);
    UserAt(t.users, i);
    OtpAt(t1.otps, |t.otps|);
    assert RemoveAt(t1.otps, |t.otps|) == t.otps;
  }

  /** `resetPassword` only ever deletes a "reset-password" OTP. */
  lemma ResetKeepsOtherPurposes(t: Tables, otp: string, otpToken: string, newPassword: string, hash: string -> string)
    requires WellFormed(t)
    ensures var r := ResetPasswordStep(t, otp, otpToken, newPassword, hash);
      forall k :: 0 <= k < |t.otps| && t.otps[k].purpose != ResetPasswordPurpose ==> t.otps[k] in r.tables.otps
  {
    var r := ResetPasswordStep(t, otp, otpToken, newPassword, hash);
    if r.response.status == Ok {
      var i := OtpByToken(t.otps, otpToken, ResetPasswordPurpose).value;
      OtpAt(t.otps, i);
      forall k | 0 <= k < |t.otps| && t.otps[k].purpose != ResetPasswordPurpose ensures t.otps[k] in r.tables.otps {
        assert k != i;
        var rest := RemoveAt(t.otps, i);
        var k' := if k < i then k else k - 1;
        assert rest[k'] == t.otps[k];
      }
    }
  }

  // ------------------------------------------------------------ account deletion and profile

  /** After a deletion the caller is gone: the profile is 404 and a second
      deletion is 404. */
  lemma DeletedAccountIsGone(t: Tables, caller: Id, password: string, hash: string -> string, again: string)
    requires WellFormed(t)
    requires DeleteUserStep(t, caller, password, hash).response.status == Ok
    ensures var t1 := DeleteUserStep(t, caller, password, hash).tables;
      && GetProfile(t1, caller).status == NotFound
      && DeleteUserStep(t1, caller, again, hash) == Refuse(t1, NotFound)
  {
    var t1 := DeleteUserStep(t, caller, password, hash).tables;
    var i := UserById(t.users, caller).value;
    forall k | 0 <= k < |t1.users| ensures t1.users[k].id != caller {
      var k' := if k < i then k else k + 1;
      assert t1.users[k] == t.users[k'];
      if k < i { assert UserKey(t.users[k]) != UserKey(t.users[i]); }
      else { assert UserKey(t.users[i]) != UserKey(t.users[k']); }
    }
  }

  /** Registration never creates a second account for an e-mail address. */
  lemma RegisterKeepsEmailsDistinct(t: Tables, name: string, email: string, password: string, hash: string -> string,
                                    code: string, otpToken: string, now: int)
    requires EmailsDistinct(t.users)
    ensures EmailsDistinct(RegisterStep(t, name, email, password, hash, code, otpToken, now).tables.users)
  {
    var r := RegisterStep(t, name, email, password, hash, code, otpToken, now);
    if r.response.status == Created {
      var users := r.tables.users;
      forall a, b | 0 <= a < b < |users| ensures users[a].email != users[b].email {
        if b == |t.users| { assert !((u: User) => u.email == email)(t.users[a]); }
        else { assert users[a] == t.users[a] && users[b] == t.users[b]; }
      }
    }
  }

  /** A profile update with a non-empty e-mail, or with none, never gives two
      users the same address. (An empty e-mail skips the check.) */
  lemma UpdateProfileKeepsEmailsDistinct(t: Tables, caller: Id, name: Option<string>, email: Option<string>)
    requires WellFormed(t) && EmailsDistinct(t.users)
    requires email != Some("")
    ensures EmailsDistinct(UpdateProfileStep(t, caller, name, email).tables.users)
  {
    var r := UpdateProfileStep(t, caller, name, email);
    if r.response.status == Ok && email.Some? {
      var i := UserById(t.users, caller).value;
      var users := r.tables.users;
      forall k | 0 <= k < |t.users| && k != i ensures t.users[k].email != email.value {
        // the first user with the address would be user k, and not the caller
      }
      forall a, b | 0 <= a < b < |users| ensures users[a].email != users[b].email {
        if a != i && b != i { assert users[a] == t.users[a] && users[b] == t.users[b]; }
      }
    }
  }

  // ------------------------------------------------------------ the service

  /** The two collections and the id source, updated in place by the
      state-changing handlers. Each method performs its handler's lookups and
      writes in the handler's order and ends in the state its step function
      describes; `login` and `getProfile` only read, and are `Login` and
      `GetProfile` applied to `State()`. The branches therefore appear twice:
      a step function is the specification the lemmas reason about, and a
      method is the handler's sequence of in-place updates, proved to reach
      that step's response and state. */
  class AccountService {
    var users: seq<User>
    var otps: seq<Otp>
    var nextId: nat

    function State(): Tables
      reads this
    {
      Tables(users, otps, nextId)
    }

    ghost predicate Valid()
      reads this
    {
      WellFormed(State())
    }

    constructor ()
      ensures Valid() && State() == Tables([], [], 0)
    {
      users := [];
      otps := [];
      nextId := 0;
    }

    method Register(name: string, email: string, password: string, hash: string -> string,
                    code: string, otpToken: string, now: int) returns (r: Response)
      requires Valid()
      modifies this
      ensures Valid()
      ensures Outcome(r, State()) == RegisterStep(old(State()), name, email, password, hash, code, otpToken, now)
    {
      ghost var t := State();
      RegisterKeepsWellFormed(t, name, email, password, hash, code, otpToken, now);
      if UserByEmail(users, email).Some? {
        return Response(Conflict, Empty);
      }
      var user := User(nextId, name, email, hash(password), false);
      users := users + [user];
      var otp := Otp(nextId + 1, user.id, code, otpToken, VerifyEmailPurpose, now);
      otps := otps + [otp];
      nextId := nextId + 2;
      // the verification mail carrying `code` goes out here
      r := Response(Created, Registered(otpToken, ViewOf(user)));
      assert State() == Tables(t.users + [user], t.otps + [otp], t.nextId + 2);
    }

    method Verify(otp: string, otpToken: string, purpose: string, now: int) returns (r: Response)
      requires Valid()
      modifies this
      ensures Valid()
      ensures Outcome(r, State()) == VerifyStep(old(State()), otp, otpToken, purpose, now)
    {
      ghost var t := State();
      VerifyKeepsWellFormed(t, otp, otpToken, purpose, now);
      if purpose != VerifyEmailPurpose {
        return Response(UnprocessableEntity, Empty);
      }
      var found := OtpByToken(otps, otpToken, purpose);
      if found.None? {
        return Response(NotFound, Empty);
      }
      var record := otps[found.value];
      if now - record.createdAt > OtpValidDuration {
        otps := DeleteOtpById(otps, record.id);
        return Response(Gone, Empty);
      }
      if otp != record.code {
        return Response(NotAcceptable, Empty);
      }
      users := MarkVerified(users, record.userId);
      otps := DeleteOtpById(otps, record.id);
      r := VerifiedResponse(users, record.userId);
      assert State() == t.(users := users, otps := otps);
    }

    method DeleteUser(caller: Id, password: string, hash: string -> string) returns (r: Response)
      requires Valid()
      modifies this
      ensures Valid()
      ensures Outcome(r, State()) == DeleteUserStep(old(State()), caller, password, hash)
    {
      DeleteUserKeepsWellFormed(State(), caller, password, hash);
      var found := UserById(users, caller);
      if found.None? {
        return Response(NotFound, Empty);
      }
      if hash(password) != users[found.value].password {
        return Response(Unauthorized, Empty);
      }
      users := RemoveAt(users, found.value);
      otps := Select(otps, (o: Otp) => o.userId != caller);
      r := Response(Ok, Empty);
    }

    method UpdatePassword(caller: Id, oldPassword: Option<string>, newPassword: Option<string>,
                          hash: string -> string) returns (r: Response)
      requires Valid()
      modifies this
      ensures Valid()
      ensures Outcome(r, State()) == UpdatePasswordStep(old(State()), caller, oldPassword, newPassword, hash)
    {
      UpdatePasswordKeepsWellFormed(State(), caller, oldPassword, newPassword, hash);
      if !Present(oldPassword) || !Present(newPassword) {
        return Response(BadRequest, Empty);
      }
      if |newPassword.value| < MinPasswordLength {
        return Response(BadRequest, Empty);
      }
      var found := UserById(users, caller);
      if found.None? {
        return Response(NotFound, Empty);
      }
      var i := found.value;
      if hash(oldPassword.value) != users[i].password {
        return Response(Unauthorized, Empty);
      }
      users := users[i := users[i].(password := hash(newPassword.value))];
      r := Response(Ok, Empty);
    }

    method ForgotPassword(email: string, code: string, otpToken: string, now: int) returns (r: Response)
      requires Valid()
      modifies this
      ensures Valid()
      ensures Outcome(r, State()) == ForgotPasswordStep(old(State()), email, code, otpToken, now)
    {
      ForgotPasswordKeepsWellFormed(State(), email, code, otpToken, now);
      var found := UserByEmail(users, email);
      if found.None? {
        return Response(NotFound, Empty);
      }
      otps := otps + [Otp(nextId, users[found.value].id, code, otpToken, ResetPasswordPurpose, now)];
      nextId := nextId + 1;
      // the reset mail carrying `code` goes out here
      r := Response(Ok, OtpIssued(otpToken));
    }

    method ResetPassword(otp: string, otpToken: string, newPassword: string, hash: string -> string)
      returns (r: Response)
      requires Valid()
      modifies this
      ensures Valid()
      ensures Outcome(r, State()) == ResetPasswordStep(old(State()), otp, otpToken, newPassword, hash)
    {
      ResetPasswordKeepsWellFormed(State(), otp, otpToken, newPassword, hash);
      var found := OtpByToken(otps, otpToken, ResetPasswordPurpose);
      if found.None? {
        return Response(NotFound, Empty);
      }
      var record := otps[found.value];
      if otp != record.code {
        return Response(NotAcceptable, Empty);
      }
      users := StorePassword(users, record.userId, hash(newPassword));
      otps := DeleteOtpById(otps, record.id);
      r := Response(Ok, Empty);
    }

    method UpdateProfile(caller: Id, name: Option<string>, email: Option<string>) returns (r: Response)
      requires Valid()
      modifies this
      ensures Valid()
      ensures Outcome(r, State()) == UpdateProfileStep(old(State()), caller, name, email)
    {
      UpdateProfileKeepsWellFormed(State(), caller, name, email);
      if Present(email) {
        var existing := UserByEmail(users, email.value);
        if existing.Some? && users[existing.value].id != caller {
          return Response(BadRequest, Empty);
        }
      }
      var found := UserById(users, caller);
      if found.None? {
        return Response(NotFound, Empty);
      }
      var i := found.value;
      var updated := users[i].(name := KeepUnless(name, users[i].name), email := KeepUnless(email, users[i].email));
      users := users[i := updated];
      r := Response(Ok, ShowProfile(PublicProfile(updated)));
    }
  }
}
