/** The authentication handlers (src/controllers/authController.js): the
    one-time-password login, two-factor setup, the PIN, logout and the
    status query. Hashing, token signing, TOTP checking and QR rendering are
    foreign calls; their results arrive as parameters. */
module AuthController {
  import opened Common
  import opened Users
  import opened UserService
  import opened ResponseHelper

  /** An OTP stays valid for five minutes. */
  const OtpLifetime: int := 5 * 60 * 1000

  const MissingSecretMessage: string := "Internal server error: Security configuration missing"
  /** What `jwt.sign` throws when it is given no secret. */
  const SignFailureMessage: string := "secretOrPrivateKey must have a value"

  /** The `user` object of a login reply. `twoFactorSecret` is `None` when
      the reply carries no such key (the 2FA login), and `Some(v)` with the
      stored value otherwise (the OTP login). */
  datatype Profile = Profile(id: UserId, email: string, userCode: string,
                             twoFactorSecret: Option<Option<string>>,
                             twoFactorEnabled: bool, pinSet: bool)

  datatype AuthData =
    | Session(token: string, user: Profile)
    | TwoFactorSetup(secret: string, qrCode: string)
    | PinVerified
    | AuthStatus(pinSet: bool, twoFactorEnabled: bool)

  /** `!!user.pin` */
  predicate PinSet(u: User) {
    Truthy(u.pin)
  }

  /** The row after an OTP was issued at time `now`. */
  function WithOtp(u: User, otp: string, now: int): User {
    u.(otpSecret := Some(otp), otpExpires := Some(now + OtpLifetime))
  }

  /** The row after its OTP was consumed. */
  function Cleared(u: User): User {
    u.(otpSecret := None, otpExpires := None)
  }

  /** The `where` clause of the OTP login: this email, this OTP, not yet
      expired. */
  predicate OtpMatches(u: User, email: string, otp: string, now: int) {
    u.email == email && u.otpSecret == Some(otp) && u.otpExpires.Some? && u.otpExpires.value > now
  }

  function OtpQuery(rows: seq<User>, email: string, otp: string, now: int): Option<nat> {
    FindIndex(rows, (u: User) => OtpMatches(u, email, otp, now))
  }

  /** `requestOTP`. `newId` is the id the store assigns to a created user,
      `draws` the random draws of `getUniqueUserCode`, `otp` the generated
      password, and `emailSent` what the mailer reported. The OTP is stored
      before the mail is sent, so it stays stored when sending fails. */
  method RequestOTP(users: UserTable, email: Option<string>, newId: UserId, draws: seq<seq<nat>>,
                    otp: string, now: int, emailSent: bool) returns (reply: Envelope<AuthData>)
    modifies users
    requires forall k :: 0 <= k < |draws| ==> ValidDraw(draws[k])
    requires exists k :: 0 <= k < |draws| && CodeOf(draws[k]) !in Codes(users.rows)
    ensures !Truthy(email) ==> reply == Error("Email is required", Some(400)) && users.rows == old(users.rows)
    ensures Truthy(email) ==>
      reply == if emailSent then Success("OTP sent to your email") else Error("Failed to send OTP email", Some(500))
    ensures Truthy(email) && FindByEmail(old(users.rows), email.value).Some? ==>
      var i := FindByEmail(old(users.rows), email.value).value;
      users.rows == old(users.rows)[i := WithOtp(old(users.rows)[i], otp, now)]
    ensures Truthy(email) && FindByEmail(old(users.rows), email.value).None? ==>
      |users.rows| == |old(users.rows)| + 1 && users.rows[..|old(users.rows)|] == old(users.rows)
      && var u := users.rows[|old(users.rows)|];
         u == WithOtp(NewUser(newId, email.value, u.userCode), otp, now)
         && IsUserCode(u.userCode) && u.userCode !in Codes(old(users.rows))
  {
    if !Truthy(email) {
      return Error("Email is required", Some(400));
    }
    var found := FindByEmail(users.rows, email.value);
    var i: nat;
    if found.None? {
      var userCode, _ := GetUniqueUserCode(draws, Codes(users.rows));
      users.rows := users.rows + [NewUser(newId, email.value, userCode)];
      i := |users.rows| - 1;
    } else {
      i := found.value;
    }
    users.rows := users.rows[i := WithOtp(users.rows[i], otp, now)];
    if emailSent {
      reply := Success("OTP sent to your email");
    } else {
      reply := Error("Failed to send OTP email", Some(500));
    }
  }

  /** `verifyOTP`. `jwtSecretSet` says whether the signing secret is
      configured and `token` is what `jwt.sign` returns. A matching row is
      cleared before the secret is checked, so even a failed login consumes
      the OTP. */
  method VerifyOTP(users: UserTable, email: Option<string>, otp: Option<string>, now: int,
                   jwtSecretSet: bool, token: string) returns (reply: Envelope<AuthData>)
    modifies users
    ensures !Truthy(email) || !Truthy(otp) ==>
      reply == Error("Email and OTP are required", Some(400)) && users.rows == old(users.rows)
    ensures Truthy(email) && Truthy(otp) && OtpQuery(old(users.rows), email.value, otp.value, now).None? ==>
      reply == Error("Invalid or expired OTP", Some(400)) && users.rows == old(users.rows)
    ensures Truthy(email) && Truthy(otp) && OtpQuery(old(users.rows), email.value, otp.value, now).Some? ==>
      var i := OtpQuery(old(users.rows), email.value, otp.value, now).value;
      var u := old(users.rows)[i];
      users.rows == old(users.rows)[i := Cleared(u)]
      && reply == if !jwtSecretSet then Error(MissingSecretMessage, Some(500))
                  else Success("Logged in successfully",
                               Some(Session(token, Profile(u.id, u.email, u.userCode, Some(u.twoFactorSecret),
                                                           u.twoFactorEnabled, PinSet(u)))))
  {
    if !Truthy(email) || !Truthy(otp) {
      return Error("Email and OTP are required", Some(400));
    }
    var found := OtpQuery(users.rows, email.value, otp.value, now);
    if found.None? {
      return Error("Invalid or expired OTP", Some(400));
    }
    var i := found.value;
    users.rows := users.rows[i := Cleared(users.rows[i])];
    if !jwtSecretSet {
      return Error(MissingSecretMessage, Some(500));
    }
    var u := users.rows[i];
    reply := Success("Logged in successfully",
                     Some(Session(token, Profile(u.id, u.email, u.userCode, Some(u.twoFactorSecret),
                                                 u.twoFactorEnabled, PinSet(u)))));
  }

  /** An OTP issued to a user whose email is unique is accepted by the login
      query exactly while it has not expired. */
  lemma {:induction false} IssuedOtpWindow(rows: seq<User>, i: nat, otp: string, issued: int, now: int)
    requires UniqueEmails(rows) && i < |rows|
    ensures var after := rows[i := WithOtp(rows[i], otp, issued)];
            (OtpQuery(after, rows[i].email, otp, now) == Some(i)) <==> now < issued + OtpLifetime
    ensures var after := rows[i := WithOtp(rows[i], otp, issued)];
            OtpQuery(after, rows[i].email, otp, now).None? <==> now >= issued + OtpLifetime
  {
    var after := rows[i := WithOtp(rows[i], otp, issued)];
    var p := (u: User) => OtpMatches(u, rows[i].email, otp, now);
    forall j | 0 <= j < |after| && j != i ensures !p(after[j]) {
      assert after[j].email != rows[i].email by {
        if j < i { assert rows[j].email != rows[i].email; }
        else { assert rows[i].email != rows[j].email; }
      }
    }
    if now < issued + OtpLifetime {
      assert p(after[i]);
    } else {
      assert !p(after[i]);
    }
  }

  /** Once consumed, an OTP is refused, and so is every other password for
      that email, at every later time. */
  lemma {:induction false} OtpSingleUse(rows: seq<User>, email: string, otp: string, now: int,
                                        otherOtp: string, later: int)
    requires UniqueEmails(rows)
    requires OtpQuery(rows, email, otp, now).Some?
    ensures var i := OtpQuery(rows, email, otp, now).value;
            OtpQuery(rows[i := Cleared(rows[i])], email, otherOtp, later).None?
  {
    var i := OtpQuery(rows, email, otp, now).value;
    var after := rows[i := Cleared(rows[i])];
    forall j | 0 <= j < |after| ensures !OtpMatches(after[j], email, otherOtp, later) {
      if j < i {
        assert rows[j].email != rows[i].email;
      } else if j > i {
        assert rows[i].email != rows[j].email;
      }
    }
  }

  /** `setup2FA`: stores the generated base32 `secret` and returns it with
      its QR code. */
  method Setup2FA(users: UserTable, email: string, secret: string, qrCode: string) returns (reply: Envelope<AuthData>)
    modifies users
    ensures FindByEmail(old(users.rows), email).None? ==>
      reply == Error("User not found", Some(404)) && users.rows == old(users.rows)
    ensures FindByEmail(old(users.rows), email).Some? ==>
      var i := FindByEmail(old(users.rows), email).value;
      users.rows == old(users.rows)[i := old(users.rows)[i].(twoFactorSecret := Some(secret))]
      && reply == Success("2FA setup initiated", Some(TwoFactorSetup(secret, qrCode)))
  {
    var found := FindByEmail(users.rows, email);
    if found.None? {
      return Error("User not found", Some(404));
    }
    var i := found.value;
    users.rows := users.rows[i := users.rows[i].(twoFactorSecret := Some(secret))];
    reply := Success("2FA setup initiated", Some(TwoFactorSetup(secret, qrCode)));
  }

  /** `verify2FA`. `verified` is the TOTP check's verdict. A verified code
      switches two-factor authentication on, and nothing here switches it
      off. Signing without a configured secret throws after the flag is
      saved. */
  method Verify2FA(users: UserTable, email: string, verified: bool, jwtSecretSet: bool, token: string)
    returns (reply: Envelope<AuthData>)
    modifies users
    ensures |users.rows| == |old(users.rows)|
    ensures forall j :: 0 <= j < |users.rows| && old(users.rows[j]).twoFactorEnabled ==> users.rows[j].twoFactorEnabled
    ensures FindByEmail(old(users.rows), email).None? ==>
      reply == Error("User not found", Some(404)) && users.rows == old(users.rows)
    ensures FindByEmail(old(users.rows), email).Some? && !verified ==>
      reply == Error("Invalid 2FA code", Some(400)) && users.rows == old(users.rows)
    ensures FindByEmail(old(users.rows), email).Some? && verified ==>
      var i := FindByEmail(old(users.rows), email).value;
      var u := old(users.rows)[i];
      users.rows == old(users.rows)[i := u.(twoFactorEnabled := true)]
      && reply == if !jwtSecretSet then Error(SignFailureMessage, Some(500))
                  else Success("Logged in successfully",
                               Some(Session(token, Profile(u.id, u.email, u.userCode, None, true, PinSet(u)))))
  {
    var found := FindByEmail(users.rows, email);
    if found.None? {
      return Error("User not found", Some(404));
    }
    if !verified {
      return Error("Invalid 2FA code", Some(400));
    }
    var i := found.value;
    if !users.rows[i].twoFactorEnabled {
      users.rows := users.rows[i := users.rows[i].(twoFactorEnabled := true)];
    }
    if !jwtSecretSet {
      return Error(SignFailureMessage, Some(500));
    }
    var u := users.rows[i];
    reply := Success("Logged in successfully",
                     Some(Session(token, Profile(u.id, u.email, u.userCode, None, u.twoFactorEnabled, PinSet(u)))));
  }

  /** `setupPin`. `hashed` is the bcrypt hash of `pin`. A PIN the quality
      rules refuse leaves the stored PIN as it was. */
  method SetupPin(users: UserTable, me: UserId, pin: string, hashed: string) returns (reply: Envelope<AuthData>)
    modifies users
    ensures FindById(old(users.rows), me).None? ==>
      reply == Error("User not found", Some(404)) && users.rows == old(users.rows)
    ensures FindById(old(users.rows), me).Some? && ValidatePin(pin).Rejected? ==>
      reply == Error(ValidatePin(pin).message, Some(400)) && users.rows == old(users.rows)
    ensures FindById(old(users.rows), me).Some? && ValidatePin(pin).Valid() ==>
      var i := FindById(old(users.rows), me).value;
      users.rows == old(users.rows)[i := old(users.rows)[i].(pin := Some(hashed))]
      && reply == Success("PIN setup successful")
  {
    var found := FindById(users.rows, me);
    if found.None? {
      return Error("User not found", Some(404));
    }
    var validation := ValidatePin(pin);
    if !validation.Valid() {
      return Error(validation.message, Some(400));
    }
    var i := found.value;
    users.rows := users.rows[i := users.rows[i].(pin := Some(hashed))];
    reply := Success("PIN setup successful");
  }

  /** `verifyPin`. `pinMatches` is bcrypt's comparison of the submitted PIN
      with the stored hash. */
  function VerifyPin(rows: seq<User>, me: UserId, pinMatches: bool): (r: Envelope<AuthData>)
    ensures r.success <==> FindById(rows, me).Some? && PinSet(rows[FindById(rows, me).value]) && pinMatches
    ensures r.success ==> r.data == Some(PinVerified)
    ensures FindById(rows, me).None? ==> r == Error("User not found", Some(404))
    ensures FindById(rows, me).Some? && !PinSet(rows[FindById(rows, me).value]) ==> r == Error("PIN not set", Some(400))
    ensures FindById(rows, me).Some? && PinSet(rows[FindById(rows, me).value]) && !pinMatches ==>
      r == Error("Invalid PIN", Some(400))
  {
    match FindById(rows, me)
    case None => Error("User not found", Some(404))
    case Some(i) =>
      if !PinSet(rows[i]) then Error("PIN not set", Some(400))
      else if !pinMatches then Error("Invalid PIN", Some(400))
      else Success("PIN verified successfully", Some(PinVerified))
  }

  /** `logout`: forgets the push token. It reports success whether or not
      the user exists. */
  method Logout(users: UserTable, me: UserId) returns (reply: Envelope<AuthData>)
    modifies users
    ensures reply == Success("Logged out successfully")
    ensures FindById(old(users.rows), me).None? ==> users.rows == old(users.rows)
    ensures FindById(old(users.rows), me).Some? ==>
      var i := FindById(old(users.rows), me).value;
      users.rows == old(users.rows)[i := old(users.rows)[i].(fcmToken := None)]
  {
    var found := FindById(users.rows, me);
    if found.Some? {
      var i := found.value;
      users.rows := users.rows[i := users.rows[i].(fcmToken := None)];
    }
    reply := Success("Logged out successfully");
  }

  /** `getAuthStatus`. */
  function GetAuthStatus(rows: seq<User>, me: UserId): (r: Envelope<AuthData>)
    ensures r.success <==> FindById(rows, me).Some?
    ensures !r.success ==> r == Error("User not found", Some(404))
    ensures r.success ==> r.data.Some? && r.data.value.AuthStatus?
    ensures r.success ==> var u := rows[FindById(rows, me).value];
      (r.data.value.pinSet <==> u.pin.Some? && u.pin.value != "")
      && r.data.value.twoFactorEnabled == u.twoFactorEnabled
  {
    match FindById(rows, me)
    case None => Error("User not found", Some(404))
    case Some(i) => Success("Auth status retrieved successfully", Some(AuthStatus(PinSet(rows[i]), rows[i].twoFactorEnabled)))
  }

  /** Once a PIN has been set (a bcrypt hash is never empty), the status
      query reports it and `verifyPin` no longer answers "PIN not set". */
  lemma PinSetIsReported(rows: seq<User>, me: UserId, hashed: string, pinMatches: bool)
    requires FindById(rows, me).Some? && hashed != ""
    ensures var i := FindById(rows, me).value;
            var after := rows[i := rows[i].(pin := Some(hashed))];
            GetAuthStatus(after, me) == Success("Auth status retrieved successfully", Some(AuthStatus(true, rows[i].twoFactorEnabled)))
            && VerifyPin(after, me, pinMatches) != Error("PIN not set", Some(400))
            && (VerifyPin(after, me, pinMatches).success <==> pinMatches)
  {
    var i := FindById(rows, me).value;
    var after := rows[i := rows[i].(pin := Some(hashed))];
    FindIndexSamePositions(after, (u: User) => u.id == me, rows, (u: User) => u.id == me);
  }
}
