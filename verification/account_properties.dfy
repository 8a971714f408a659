/** Properties of the account state machines that relate several requests,
    or a request and the invariant of the collection. */
module AccountProperties {
  import opened Wrappers
  import opened Credentials
  import opened Accounts

  // ---------------------------------------------------------------------
  // The invariant is kept by every handler

  /** A new verification cycle with an unused token keeps the collection well formed. */
  lemma RearmKeepsWellFormed(users: seq<User>, users': seq<User>, i: nat, token: string, now: int)
    requires WellFormed(users) && Unused(users, token)
    requires Rearmed(users, users', i, token, now)
    ensures WellFormed(users')
  {
  }

  lemma RegisterKeepsWellFormed(sha: Sha256, users: seq<User>, email: string, password: string,
                                now: int, random: Option<Entropy>, writeOk: bool, mailOk: bool)
    requires WellFormed(users) && FreshEntropy(users, random)
    ensures WellFormed(Register(sha, users, email, password, now, random, writeOk, mailOk).users)
  {
  }

  lemma ConfirmVerificationKeepsWellFormed(users: seq<User>, token: string, now: int, writeOk: bool)
    requires WellFormed(users)
    ensures WellFormed(ConfirmVerification(users, token, now, writeOk).users)
  {
  }

  lemma RequestResetKeepsWellFormed(users: seq<User>, email: string, now: int, random: Option<Entropy>, writeOk: bool)
    requires WellFormed(users) && FreshEntropy(users, random)
    ensures WellFormed(RequestReset(users, email, now, random, writeOk).users)
  {
  }

  lemma ConfirmResetKeepsWellFormed(sha: Sha256, users: seq<User>, verb: HttpMethod, email: string, password: string,
                                    token: string, now: int, writeOk: bool)
    requires WellFormed(users)
    ensures WellFormed(ConfirmReset(sha, users, verb, email, password, token, now, writeOk).users)
  {
  }

  lemma ResendKeepsWellFormed(users: seq<User>, email: string, now: int, random: Option<Entropy>, writeOk: bool)
    requires WellFormed(users) && FreshEntropy(users, random)
    ensures WellFormed(ResendVerification(users, email, now, random, writeOk).users)
  {
  }

  // ---------------------------------------------------------------------
  // Verification

  /** Confirming is idempotent: after a success the same link reports AlreadyVerified. */
  lemma ConfirmTwice(users: seq<User>, token: string, now: int, writeOk: bool, later: int, writeOk': bool)
    requires ConfirmVerification(users, token, now, writeOk).outcome == Verified
    ensures ConfirmVerification(ConfirmVerification(users, token, now, writeOk).users, token, later, writeOk').outcome
            == AlreadyVerified
  {
  }

  /** A first registration leaves a pending account whose link confirms it up to, and including,
      the instant the link expires, and reports it expired afterwards. */
  lemma RegisterThenConfirm(sha: Sha256, users: seq<User>, email: string, password: string,
                            now: int, random: Option<Entropy>, mailOk: bool, later: int)
    requires email != "" && password != "" && Find(users, ByEmail(email)).None?
    requires random.Some? && FreshEntropy(users, random)
    ensures
      var users' := Register(sha, users, email, password, now, random, true, mailOk).users;
      var token := GenerateToken(random).value;
      CheckVerified(users', email, later) == Status(false, later > now + VERIFICATION_WINDOW) &&
      ConfirmVerification(users', token, later, true).outcome ==
        (if later <= now + VERIFICATION_WINDOW then Verified else LinkExpired)
  {
  }

  /** A link for a token nobody holds is invalid, whatever else is true. */
  lemma ConfirmUnknownToken(users: seq<User>, token: string, now: int, writeOk: bool)
    requires token != "" && Unused(users, token)
    ensures ConfirmVerification(users, token, now, writeOk) == Step(InvalidLink, users)
  {
  }

  /** With one account per address, the status is that of the account holding the address. */
  lemma CheckVerifiedOfAccount(users: seq<User>, email: string, now: int, i: nat)
    requires EmailsUnique(users) && email != ""
    requires i < |users| && users[i].email == email
    ensures CheckVerified(users, email, now) ==
            Status(users[i].verified, !users[i].verified && Expired(now, users[i].verificationExpiry))
  {
  }

  // ---------------------------------------------------------------------
  // Password reset

  /** The forgot-password answer is the same for every collection, so it cannot tell whether an
      address has an account. */
  lemma RequestResetIndistinguishable(users: seq<User>, others: seq<User>, email: string,
                                      now: int, random: Option<Entropy>)
    requires email != "" && random.Some?
    ensures RequestReset(users, email, now, random, true).outcome ==
            RequestReset(others, email, now, random, true).outcome
  {
  }

  /** When the random read fails, the forgot-password answer does tell a known address
      (a server error) from an unknown one (the generic notice). */
  lemma RequestResetFailureRevealsAccount(users: seq<User>, others: seq<User>, email: string, now: int, writeOk: bool)
    requires email != "" && Find(users, ByEmail(email)).Some? && Find(others, ByEmail(email)).None?
    ensures RequestReset(users, email, now, None, writeOk).outcome == InternalError(TokenGeneration)
    ensures RequestReset(others, email, now, None, writeOk).outcome == ResetNotice
  {
  }

  /** A reset link works up to the end of its 15-minute window, for the address it was issued to. */
  lemma RequestThenConfirmReset(sha: Sha256, users: seq<User>, email: string, issued: int,
                                random: Option<Entropy>, password: string, later: int)
    requires email != "" && password != "" && Find(users, ByEmail(email)).Some?
    requires random.Some? && FreshEntropy(users, random)
    ensures
      var users' := RequestReset(users, email, issued, random, true).users;
      var token := GenerateToken(random).value;
      ConfirmReset(sha, users', Post, email, password, token, later, true).outcome ==
        (if later <= issued + RESET_WINDOW then ResetOk else InvalidLink)
  {
  }

  /** After a successful reset the same token finds no account, so the link is dead. */
  lemma ResetTokenSingleUse(sha: Sha256, users: seq<User>, email: string, password: string, token: string,
                            now: int, verb: HttpMethod, email': string, password': string, later: int, writeOk: bool)
    requires ResetTokensUnique(users)
    requires ConfirmReset(sha, users, Post, email, password, token, now, true).outcome == ResetOk
    requires email' != "" && password' != ""
    ensures
      var users' := ConfirmReset(sha, users, Post, email, password, token, now, true).users;
      Find(users', ByResetToken(token)).None? &&
      ConfirmReset(sha, users', verb, email', password', token, later, writeOk).outcome == InvalidLink
  {
  }

  /** After a successful reset the sign-in check of POST / accepts the new password and,
      unless the two digests collide, rejects the old one. */
  lemma ResetThenSignIn(sha: Sha256, users: seq<User>, email: string, password: string, token: string, now: int,
                        attempt: string, later: int, random: Option<Entropy>, writeOk: bool, mailOk: bool)
    requires EmailsUnique(users)
    requires ConfirmReset(sha, users, Post, email, password, token, now, true).outcome == ResetOk
    requires attempt != ""
    ensures
      var users' := ConfirmReset(sha, users, Post, email, password, token, now, true).users;
      (Register(sha, users', email, attempt, later, random, writeOk, mailOk).outcome == IncorrectPassword
       <==> HashPassword(sha, attempt) != HashPassword(sha, password))
  {
  }
}
