/** The users collection as the handlers use it: one object owning the
    documents, with one method per request handler. Each method looks a
    document up, branches, and applies a small update in place; its
    postcondition ties the response and the new collection to the handler's
    function in Accounts, whose properties are proved there and in
    AccountProperties. */
module Store {
  import opened Wrappers
  import opened Credentials
  import opened Accounts
  import AccountProperties

  class UserStore {
    /** The digest function hashPassword is built on. */
    const sha: Sha256
    var users: seq<User>

    ghost predicate Valid()
      reads this
    {
      WellFormed(users)
    }

    constructor (sha: Sha256)
      ensures Valid()
      ensures this.sha == sha && users == []
    {
      this.sha := sha;
      users := [];
    }

    /** verifyRequestHandler, POST branch. */
    method VerifyRequest(email: string, password: string, now: int, random: Option<Entropy>,
                         writeOk: bool, mailOk: bool) returns (outcome: Outcome)
      requires Valid() && FreshEntropy(users, random)
      modifies this
      ensures Valid()
      ensures Step(outcome, users) == Register(sha, old(users), email, password, now, random, writeOk, mailOk)
    {
      AccountProperties.RegisterKeepsWellFormed(sha, users, email, password, now, random, writeOk, mailOk);
      if email == "" || password == "" {
        return BadRequest;
      }
      var found := Find(users, ByEmail(email));
      if found.None? {
        var hash := HashPassword(sha, password);
        var token := GenerateToken(random);
        if token.None? {
          return InternalError(TokenGeneration);
        }
        var expiry := now + VERIFICATION_WINDOW;
        if !writeOk {
          return InternalError(StoreWrite);
        }
        users := users + [NewUser(email, hash, token.value, expiry)];
        if !mailOk {
          return InternalError(MailDelivery);
        }
        return VerificationSent;
      }
      var i := found.value;
      var user := users[i];
      if user.passwordHash != HashPassword(sha, password) {
        return IncorrectPassword;
      }
      if user.verified {
        return AlreadyVerified;
      }
      var token := GenerateToken(random);
      if token.None? {
        return InternalError(TokenGeneration);
      }
      var expiry := now + VERIFICATION_WINDOW;
      if !writeOk {
        return InternalError(StoreWrite);
      }
      users := users[i := user.(verificationToken := token.value, verificationExpiry := expiry, verified := false)];
      if !mailOk {
        return InternalError(MailDelivery);
      }
      return VerificationSent;
    }

    /** verifyHandler. */
    method Verify(token: string, now: int, writeOk: bool) returns (outcome: Outcome)
      requires Valid()
      modifies this
      ensures Valid()
      ensures Step(outcome, users) == ConfirmVerification(old(users), token, now, writeOk)
    {
      AccountProperties.ConfirmVerificationKeepsWellFormed(users, token, now, writeOk);
      if token == "" {
        return MissingToken;
      }
      var found := Find(users, ByVerificationToken(token));
      if found.None? {
        return InvalidLink;
      }
      var i := found.value;
      if users[i].verified {
        return AlreadyVerified;
      }
      if Expired(now, users[i].verificationExpiry) {
        return LinkExpired;
      }
      if !writeOk {
        return InternalError(StoreWrite);
      }
      users := users[i := users[i].(verified := true)];
      return Verified;
    }

    /** checkVerifiedHandler: reads the collection and changes nothing. */
    method CheckVerified(email: string, now: int) returns (status: Status)
      ensures status == Accounts.CheckVerified(users, email, now)
      ensures !(status.verified && status.expired)
    {
      if email == "" {
        return Status(false, false);
      }
      var found := Find(users, ByEmail(email));
      if found.None? {
        return Status(false, false);
      }
      var user := users[found.value];
      if user.verified {
        return Status(true, false);
      }
      if Expired(now, user.verificationExpiry) {
        return Status(false, true);
      }
      return Status(false, false);
    }

    /** forgotPasswordHandler, POST branch. */
    method ForgotPassword(email: string, now: int, random: Option<Entropy>, writeOk: bool) returns (outcome: Outcome)
      requires Valid() && FreshEntropy(users, random)
      modifies this
      ensures Valid()
      ensures Step(outcome, users) == RequestReset(old(users), email, now, random, writeOk)
    {
      AccountProperties.RequestResetKeepsWellFormed(users, email, now, random, writeOk);
      if email == "" {
        return BadRequest;
      }
      var found := Find(users, ByEmail(email));
      if found.None? {
        return ResetNotice;
      }
      var token := GenerateToken(random);
      if token.None? {
        return InternalError(TokenGeneration);
      }
      var expiry := now + RESET_WINDOW;
      if !writeOk {
        return InternalError(StoreWrite);
      }
      var i := found.value;
      users := users[i := users[i].(resetToken := token.value, resetExpiry := expiry)];
      return ResetNotice;
    }

    /** resetPasswordHandler. */
    method ResetPassword(verb: HttpMethod, email: string, password: string, token: string, now: int, writeOk: bool)
      returns (outcome: Outcome)
      requires Valid()
      modifies this
      ensures Valid()
      ensures Step(outcome, users) == ConfirmReset(sha, old(users), verb, email, password, token, now, writeOk)
    {
      AccountProperties.ConfirmResetKeepsWellFormed(sha, users, verb, email, password, token, now, writeOk);
      if email == "" || password == "" || token == "" {
        return BadRequest;
      }
      var found := Find(users, ByResetToken(token));
      if found.None? || Expired(now, users[found.value].resetExpiry) {
        return InvalidLink;
      }
      if verb == Get {
        return ResetForm(token);
      }
      if verb != Post {
        return MethodNotAllowed;
      }
      var i := found.value;
      if email != users[i].email {
        return EmailMismatch;
      }
      var hash := HashPassword(sha, password);
      if !writeOk {
        return InternalError(StoreWrite);
      }
      users := users[i := users[i].(passwordHash := hash, resetToken := "", resetExpiry := ZERO_TIME)];
      return ResetOk;
    }

    /** resendVerificationHandler, POST branch. */
    method ResendVerification(email: string, now: int, random: Option<Entropy>, writeOk: bool) returns (outcome: Outcome)
      requires Valid() && FreshEntropy(users, random)
      modifies this
      ensures Valid()
      ensures Step(outcome, users) == Accounts.ResendVerification(old(users), email, now, random, writeOk)
    {
      AccountProperties.ResendKeepsWellFormed(users, email, now, random, writeOk);
      if email == "" {
        return BadRequest;
      }
      var found := Find(users, ByEmail(email));
      if found.None? {
        return ResendNotice;
      }
      var i := found.value;
      if users[i].verified {
        return AlreadyVerified;
      }
      var token := GenerateToken(random);
      if token.None? {
        return InternalError(TokenGeneration);
      }
      var expiry := now + VERIFICATION_WINDOW;
      if !writeOk {
        return InternalError(StoreWrite);
      }
      users := users[i := users[i].(verificationToken := token.value, verificationExpiry := expiry, verified := false)];
      return ResendNotice;
    }
  }
}
