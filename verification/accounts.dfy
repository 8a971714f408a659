/** The account state machines: the user record, lookups in the users
    collection, the invariant the collection keeps, and one function per
    request handler that gives the response and the collection after the
    request. Time is an integer count of milliseconds since the Unix epoch,
    the resolution at which the collection stores timestamps. */
module Accounts {
  import opened Wrappers
  import opened Hex
  import opened Credentials

  const MINUTE: int := 60 * 1000
  const VERIFICATION_WINDOW: int := 3 * MINUTE
  const RESET_WINDOW: int := 15 * MINUTE
  /** Go's zero time.Time (1 January of year 1), which a record holds in an unset timestamp field. */
  const ZERO_TIME: int := -62135596800000

  /** time.Now().After(expiry): a token is still good at the instant it expires. */
  predicate Expired(now: int, expiry: int)
  {
    now > expiry
  }

  /** A document of the users collection. The empty string marks a reset
      token that was never issued or has been removed. */
  datatype User = User(
    email: string,
    passwordHash: string,
    verified: bool,
    verificationToken: string,
    verificationExpiry: int,
    resetToken: string,
    resetExpiry: int)

  /** The document inserted for a first registration. */
  function NewUser(email: string, passwordHash: string, token: string, expiry: int): User
  {
    User(email, passwordHash, false, token, expiry, "", ZERO_TIME)
  }

  /** The three filters the handlers query the collection with. */
  datatype Key = ByEmail(email: string) | ByVerificationToken(token: string) | ByResetToken(token: string)

  predicate Matches(u: User, key: Key)
  {
    match key
    case ByEmail(e) => u.email == e
    case ByVerificationToken(t) => u.verificationToken == t
    case ByResetToken(t) => u.resetToken == t
  }

  /** FindOne: the position of the first document that matches the filter. */
  function Find(users: seq<User>, key: Key): (r: Option<nat>)
    ensures r.Some? ==> r.value < |users| && Matches(users[r.value], key)
    ensures r.Some? ==> forall j :: 0 <= j < r.value ==> !Matches(users[j], key)
    ensures r.None? ==> forall j :: 0 <= j < |users| ==> !Matches(users[j], key)
  {
    if users == [] then None
    else if Matches(users[0], key) then Some(0)
    else
      match Find(users[1..], key)
      case None => None
      case Some(k) => Some(k + 1)
  }

  datatype HttpMethod = Get | Post | OtherMethod

  /** The internal failures a handler reports as a server error. */
  datatype Failure = TokenGeneration | StoreWrite | MailDelivery

  /** The responses of the handlers, one constructor per kind of response; the wording depends on the handler. */
  datatype Outcome =
    | BadRequest          // a required field is empty
    | VerificationSent    // "A verification email has been sent. ..."
    | IncorrectPassword   // "Incorrect password."
    | AlreadyVerified     // "Your email is already verified!"
    | MissingToken        // "Verification token is missing."
    | InvalidLink         // "Invalid or expired verification/reset link."
    | LinkExpired         // "Email verification failed. The link has expired."
    | Verified            // "Your email is verified successfully!"
    | ResendNotice        // "If the email exists, a verification email will be resent."
    | ResetNotice         // "If the email exists, a reset link will be sent."
    | ResetForm(token: string) // the reset form, prefilled with the token
    | EmailMismatch       // "Email does not match reset request."
    | ResetOk             // "Password reset successful! You can now log in."
    | MethodNotAllowed    // "Method not allowed."
    | InternalError(failure: Failure)

  /** The body of the check-verified response. */
  datatype Status = Status(verified: bool, expired: bool)

  /** A response together with the collection after the request. */
  datatype Step = Step(outcome: Outcome, users: seq<User>)

  // ---------------------------------------------------------------------
  // The invariant of the collection

  predicate EmailsUnique(users: seq<User>)
  {
    forall i, j :: 0 <= i < j < |users| ==> users[i].email != users[j].email
  }

  predicate VerificationTokensUnique(users: seq<User>)
  {
    forall i, j :: 0 <= i < j < |users| && users[i].verificationToken != "" ==>
      users[i].verificationToken != users[j].verificationToken
  }

  predicate ResetTokensUnique(users: seq<User>)
  {
    forall i, j :: 0 <= i < j < |users| && users[i].resetToken != "" ==>
      users[i].resetToken != users[j].resetToken
  }

  /** At most one account per email address, and an issued token names at most one account. */
  predicate WellFormed(users: seq<User>)
  {
    EmailsUnique(users) && VerificationTokensUnique(users) && ResetTokensUnique(users)
  }

  /** No document holds this string as a token of either kind. */
  predicate Unused(users: seq<User>, token: string)
  {
    forall i :: 0 <= i < |users| ==> users[i].verificationToken != token && users[i].resetToken != token
  }

  /** 128 random bits do not repeat a token already issued. */
  predicate FreshEntropy(users: seq<User>, random: Option<Entropy>)
  {
    random.Some? ==> Unused(users, GenerateToken(random).value)
  }

  /** Every document except the one at position i is left as it was. */
  predicate OthersUnchanged(users: seq<User>, users': seq<User>, i: nat)
  {
    |users'| == |users| && forall j :: 0 <= j < |users| && j != i ==> users'[j] == users[j]
  }

  /** The document at i has a new verification cycle ($set of verification_token,
      verification_expiry and verified) and nothing else changed. */
  predicate Rearmed(users: seq<User>, users': seq<User>, i: nat, token: string, now: int)
  {
    i < |users| && OthersUnchanged(users, users', i) &&
    users'[i] == users[i].(verified := false, verificationToken := token, verificationExpiry := now + VERIFICATION_WINDOW)
  }

  // ---------------------------------------------------------------------
  // The handlers

  /** A new verification token for the document at i, shared by re-registration and resend. */
  function Rearm(users: seq<User>, i: nat, now: int, random: Option<Entropy>, writeOk: bool, sent: Outcome): (r: Step)
    requires i < |users|
    requires sent != InternalError(TokenGeneration) && sent != InternalError(StoreWrite)
    ensures r.outcome == sent || r.outcome == InternalError(TokenGeneration) || r.outcome == InternalError(StoreWrite)
    ensures r.outcome == sent <==> random.Some? && writeOk
    ensures r.outcome == sent ==> Rearmed(users, r.users, i, GenerateToken(random).value, now)
    ensures random.None? ==> r.outcome == InternalError(TokenGeneration)
    ensures random.Some? && !writeOk ==> r.outcome == InternalError(StoreWrite)
    ensures r.outcome != sent ==> r.users == users
  {
    match GenerateToken(random)
    case None => Step(InternalError(TokenGeneration), users)
    case Some(token) =>
      if !writeOk then Step(InternalError(StoreWrite), users)
      else
        Step(sent, users[i := users[i].(verificationToken := token, verificationExpiry := now + VERIFICATION_WINDOW, verified := false)])
  }

  /** POST / : register an address, or ask again for a verification link. */
  function Register(sha: Sha256, users: seq<User>, email: string, password: string,
                    now: int, random: Option<Entropy>, writeOk: bool, mailOk: bool): (r: Step)
    ensures r.outcome == BadRequest <==> email == "" || password == ""
    // a first registration inserts exactly one pending document, and only for an unknown address
    ensures |r.users| == |users| || |r.users| == |users| + 1
    ensures |r.users| == |users| + 1 <==>
      email != "" && password != "" && Find(users, ByEmail(email)).None? && random.Some? && writeOk
    ensures |r.users| == |users| + 1 ==>
      r.users[..|users|] == users &&
      r.users[|users|] == NewUser(email, HashPassword(sha, password), GenerateToken(random).value, now + VERIFICATION_WINDOW)
    // a known address with a different password
    ensures r.outcome == IncorrectPassword <==>
      email != "" && password != "" &&
      var f := Find(users, ByEmail(email));
      f.Some? && users[f.value].passwordHash != HashPassword(sha, password)
    // a known, verified address with the right password
    ensures r.outcome == AlreadyVerified <==>
      email != "" && password != "" &&
      var f := Find(users, ByEmail(email));
      f.Some? && users[f.value].passwordHash == HashPassword(sha, password) && users[f.value].verified
    // otherwise the address is new, or known, unverified and given the right password:
    // a token is issued and written, and mail failure is reported without undoing the write
    ensures r.outcome in {VerificationSent, InternalError(MailDelivery)} <==>
      email != "" && password != "" && random.Some? && writeOk &&
      var f := Find(users, ByEmail(email));
      f.None? || (users[f.value].passwordHash == HashPassword(sha, password) && !users[f.value].verified)
    ensures r.outcome in {VerificationSent, InternalError(MailDelivery)} ==>
      r.outcome == (if mailOk then VerificationSent else InternalError(MailDelivery))
    ensures r.outcome in {VerificationSent, InternalError(MailDelivery)} && |r.users| == |users| ==>
      var f := Find(users, ByEmail(email));
      f.Some? && random.Some? && Rearmed(users, r.users, f.value, GenerateToken(random).value, now)
    // on that same path a failed random read or a failed write is a server error, and nothing is written
    ensures (email != "" && password != "" && random.None? &&
      var f := Find(users, ByEmail(email));
      f.None? || (users[f.value].passwordHash == HashPassword(sha, password) && !users[f.value].verified)) ==>
      r.outcome == InternalError(TokenGeneration)
    ensures (email != "" && password != "" && random.Some? && !writeOk &&
      var f := Find(users, ByEmail(email));
      f.None? || (users[f.value].passwordHash == HashPassword(sha, password) && !users[f.value].verified)) ==>
      r.outcome == InternalError(StoreWrite)
    ensures r.outcome in {BadRequest, IncorrectPassword, AlreadyVerified, VerificationSent,
                          InternalError(TokenGeneration), InternalError(StoreWrite), InternalError(MailDelivery)}
    ensures r.outcome !in {VerificationSent, InternalError(MailDelivery)} ==> r.users == users
    ensures EmailsUnique(users) ==> EmailsUnique(r.users)
  {
    var sent := if mailOk then VerificationSent else InternalError(MailDelivery);
    if email == "" || password == "" then Step(BadRequest, users)
    else
      match Find(users, ByEmail(email))
      case None =>
        var hash := HashPassword(sha, password);
        (match GenerateToken(random)
         case None => Step(InternalError(TokenGeneration), users)
         case Some(token) =>
           if !writeOk then Step(InternalError(StoreWrite), users)
           else
             var users' := users + [NewUser(email, hash, token, now + VERIFICATION_WINDOW)];
             assert users'[..|users|] == users;
             Step(sent, users'))
      case Some(i) =>
        if users[i].passwordHash != HashPassword(sha, password) then Step(IncorrectPassword, users)
        else if users[i].verified then Step(AlreadyVerified, users)
        else
          Rearm(users, i, now, random, writeOk, sent)
  }

  /** GET /verify?token=... : confirm an address with the link's token. */
  function ConfirmVerification(users: seq<User>, token: string, now: int, writeOk: bool): (r: Step)
    ensures r.outcome == MissingToken <==> token == ""
    ensures r.outcome == InvalidLink <==> token != "" && Find(users, ByVerificationToken(token)).None?
    ensures r.outcome == AlreadyVerified <==>
      token != "" &&
      var f := Find(users, ByVerificationToken(token));
      f.Some? && users[f.value].verified
    ensures r.outcome == LinkExpired <==>
      token != "" &&
      var f := Find(users, ByVerificationToken(token));
      f.Some? && !users[f.value].verified && Expired(now, users[f.value].verificationExpiry)
    ensures r.outcome == Verified <==>
      token != "" &&
      var f := Find(users, ByVerificationToken(token));
      f.Some? && !users[f.value].verified && !Expired(now, users[f.value].verificationExpiry) && writeOk
    ensures r.outcome == InternalError(StoreWrite) <==>
      token != "" &&
      var f := Find(users, ByVerificationToken(token));
      f.Some? && !users[f.value].verified && !Expired(now, users[f.value].verificationExpiry) && !writeOk
    ensures r.outcome in {MissingToken, InvalidLink, AlreadyVerified, LinkExpired, Verified, InternalError(StoreWrite)}
    // only `verified` changes, and only on success; the token stays in place
    ensures r.outcome != Verified ==> r.users == users
    ensures r.outcome == Verified ==>
      var i := Find(users, ByVerificationToken(token)).value;
      OthersUnchanged(users, r.users, i) && r.users[i] == users[i].(verified := true)
    ensures |r.users| == |users|
    ensures forall j :: 0 <= j < |users| && users[j].verified ==> r.users[j].verified
  {
    if token == "" then Step(MissingToken, users)
    else
      match Find(users, ByVerificationToken(token))
      case None => Step(InvalidLink, users)
      case Some(i) =>
        if users[i].verified then Step(AlreadyVerified, users)
        else if Expired(now, users[i].verificationExpiry) then Step(LinkExpired, users)
        else if !writeOk then Step(InternalError(StoreWrite), users)
        else Step(Verified, users[i := users[i].(verified := true)])
  }

  /** GET /check-verified?email=... : a read-only view of an address's state. */
  function CheckVerified(users: seq<User>, email: string, now: int): (s: Status)
    ensures !(s.verified && s.expired)
    ensures s.verified <==>
      email != "" &&
      var f := Find(users, ByEmail(email));
      f.Some? && users[f.value].verified
    ensures s.expired <==>
      email != "" &&
      var f := Find(users, ByEmail(email));
      f.Some? && !users[f.value].verified && Expired(now, users[f.value].verificationExpiry)
  {
    if email == "" then Status(false, false)
    else
      match Find(users, ByEmail(email))
      case None => Status(false, false)
      case Some(i) =>
        if users[i].verified then Status(true, false)
        else if Expired(now, users[i].verificationExpiry) then Status(false, true)
        else Status(false, false)
  }

  /** POST /forgot-password : issue a reset token for an address, if it is known. */
  function RequestReset(users: seq<User>, email: string, now: int, random: Option<Entropy>, writeOk: bool): (r: Step)
    ensures r.outcome == BadRequest <==> email == ""
    // the same answer whether or not the address is known
    ensures email != "" && (Find(users, ByEmail(email)).None? || (random.Some? && writeOk)) ==>
      r.outcome == ResetNotice
    // for a known address a failed random read or a failed write is a server error
    ensures email != "" && Find(users, ByEmail(email)).Some? && random.None? ==>
      r.outcome == InternalError(TokenGeneration)
    ensures email != "" && Find(users, ByEmail(email)).Some? && random.Some? && !writeOk ==>
      r.outcome == InternalError(StoreWrite)
    ensures r.outcome in {BadRequest, ResetNotice, InternalError(TokenGeneration), InternalError(StoreWrite)}
    // nothing is created, and an unknown address changes nothing
    ensures |r.users| == |users|
    ensures Find(users, ByEmail(email)).None? ==> r.users == users
    ensures r.outcome == ResetNotice && Find(users, ByEmail(email)).Some? ==>
      var i := Find(users, ByEmail(email)).value;
      random.Some? && writeOk && OthersUnchanged(users, r.users, i) &&
      r.users[i] == users[i].(resetToken := GenerateToken(random).value, resetExpiry := now + RESET_WINDOW)
    ensures r.outcome != ResetNotice ==> r.users == users
  {
    if email == "" then Step(BadRequest, users)
    else
      match Find(users, ByEmail(email))
      case None => Step(ResetNotice, users)
      case Some(i) =>
        match GenerateToken(random)
        case None => Step(InternalError(TokenGeneration), users)
        case Some(token) =>
          if !writeOk then Step(InternalError(StoreWrite), users)
          else
            Step(ResetNotice, users[i := users[i].(resetToken := token, resetExpiry := now + RESET_WINDOW)])
  }

  /** /reset-password : set a new password with a reset token. */
  function ConfirmReset(sha: Sha256, users: seq<User>, verb: HttpMethod, email: string, password: string,
                        token: string, now: int, writeOk: bool): (r: Step)
    ensures r.outcome == BadRequest <==> email == "" || password == "" || token == ""
    ensures r.outcome == InvalidLink <==>
      email != "" && password != "" && token != "" &&
      var f := Find(users, ByResetToken(token));
      f.None? || Expired(now, users[f.value].resetExpiry)
    ensures r.outcome == EmailMismatch <==>
      email != "" && password != "" && token != "" && verb == Post &&
      var f := Find(users, ByResetToken(token));
      f.Some? && !Expired(now, users[f.value].resetExpiry) && users[f.value].email != email
    ensures r.outcome == ResetOk <==>
      email != "" && password != "" && token != "" && verb == Post && writeOk &&
      var f := Find(users, ByResetToken(token));
      f.Some? && !Expired(now, users[f.value].resetExpiry) && users[f.value].email == email
    ensures r.outcome == InternalError(StoreWrite) <==>
      email != "" && password != "" && token != "" && verb == Post && !writeOk &&
      var f := Find(users, ByResetToken(token));
      f.Some? && !Expired(now, users[f.value].resetExpiry) && users[f.value].email == email
    // a live link fetched with GET gives back the form; any other verb is refused
    ensures r.outcome == ResetForm(token) <==>
      email != "" && password != "" && token != "" && verb == Get &&
      var f := Find(users, ByResetToken(token));
      f.Some? && !Expired(now, users[f.value].resetExpiry)
    ensures r.outcome == MethodNotAllowed <==>
      email != "" && password != "" && token != "" && verb != Get && verb != Post &&
      var f := Find(users, ByResetToken(token));
      f.Some? && !Expired(now, users[f.value].resetExpiry)
    ensures r.outcome in {BadRequest, InvalidLink, ResetForm(token), MethodNotAllowed, EmailMismatch, ResetOk,
                          InternalError(StoreWrite)}
    // success sets the hash and removes both reset fields; nothing else ever changes
    ensures r.outcome != ResetOk ==> r.users == users
    ensures r.outcome == ResetOk ==>
      var i := Find(users, ByResetToken(token)).value;
      OthersUnchanged(users, r.users, i) &&
      r.users[i] == users[i].(passwordHash := HashPassword(sha, password), resetToken := "", resetExpiry := ZERO_TIME)
    ensures |r.users| == |users|
    ensures forall j :: 0 <= j < |users| && r.users[j].passwordHash != users[j].passwordHash ==>
      r.outcome == ResetOk && users[j].email == email
  {
    if email == "" || password == "" || token == "" then Step(BadRequest, users)
    else
      match Find(users, ByResetToken(token))
      case None => Step(InvalidLink, users)
      case Some(i) =>
        if Expired(now, users[i].resetExpiry) then Step(InvalidLink, users)
        else if verb == Get then Step(ResetForm(token), users)
        else if verb != Post then Step(MethodNotAllowed, users)
        else if email != users[i].email then Step(EmailMismatch, users)
        else
          var hash := HashPassword(sha, password);
          if !writeOk then Step(InternalError(StoreWrite), users)
          else Step(ResetOk, users[i := users[i].(passwordHash := hash, resetToken := "", resetExpiry := ZERO_TIME)])
  }

  /** POST /resend-verification : a new verification link, trusting the address alone. */
  function ResendVerification(users: seq<User>, email: string, now: int, random: Option<Entropy>, writeOk: bool): (r: Step)
    ensures r.outcome == BadRequest <==> email == ""
    ensures r.outcome == AlreadyVerified <==>
      email != "" &&
      var f := Find(users, ByEmail(email));
      f.Some? && users[f.value].verified
    // an unknown address and an unverified one get the same answer
    ensures (email != "" &&
      var f := Find(users, ByEmail(email));
      f.None? || (!users[f.value].verified && random.Some? && writeOk)) ==>
      r.outcome == ResendNotice
    ensures r.outcome == ResendNotice && Find(users, ByEmail(email)).Some? ==>
      var i := Find(users, ByEmail(email)).value;
      !users[i].verified && random.Some? && writeOk &&
      Rearmed(users, r.users, i, GenerateToken(random).value, now)
    // for an unverified address a failed random read or a failed write is a server error
    ensures (email != "" &&
      var f := Find(users, ByEmail(email));
      f.Some? && !users[f.value].verified && random.None?) ==>
      r.outcome == InternalError(TokenGeneration)
    ensures (email != "" &&
      var f := Find(users, ByEmail(email));
      f.Some? && !users[f.value].verified && random.Some? && !writeOk) ==>
      r.outcome == InternalError(StoreWrite)
    ensures r.outcome in {BadRequest, AlreadyVerified, ResendNotice, InternalError(TokenGeneration), InternalError(StoreWrite)}
    ensures r.outcome != ResendNotice ==> r.users == users
    // an unknown address writes nothing
    ensures Find(users, ByEmail(email)).None? ==> r.users == users
    ensures |r.users| == |users|
  {
    if email == "" then Step(BadRequest, users)
    else
      match Find(users, ByEmail(email))
      case None => Step(ResendNotice, users)
      case Some(i) =>
        if users[i].verified then Step(AlreadyVerified, users)
        else
          Rearm(users, i, now, random, writeOk, ResendNotice)
  }
}
