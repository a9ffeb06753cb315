/** The email one-time-password login flow: issuing a code, verifying it, and
    the per-email record of failed verifications that locks an email out. */
module Login {
  import opened Otp
  import opened Sessions

  /** How long an email stays locked after too many failures. */
  const LockoutDuration: nat := 5 * Minute

  /** The failure count at which an email is locked. */
  const LockoutThreshold: int := 5

  /** The length of an issued code. */
  const OtpLength: nat := 6

  const MailSubject: string := "Your OTP for Login"
  const MailBodyPrefix: string := "Your OTP is: "

  /** Failed verifications of one email. A zero `lockout` is the unset time,
      which lies before every clock reading. */
  datatype LoginAttempt = LoginAttempt(attempts: int, lockout: nat, lastAttempt: nat)

  /** The record read for an email that has none. */
  const NoAttempt: LoginAttempt := LoginAttempt(0, 0, 0)

  /** The answer a handler gives. */
  datatype Outcome =
    | TooManyAttempts(wait: int)
    | InvalidOTP
    | AlreadyLoggedIn(userID: string)
    | OTPSent
    | GenerateFailed
    | SendFailed
    | LoginSuccessful(userID: string)
    | UserLookupFailed

  /** The result of the user directory's get-or-create lookup by email. */
  datatype Lookup = Found(userID: string) | LookupError

  /** The message handed to the email sender, if any. */
  datatype Mail = NoMail | Mail(to: string, subject: string, body: string)

  function AttemptOf(failedLogins: map<string, LoginAttempt>, email: string): LoginAttempt
  {
    if email in failedLogins then failedLogins[email] else NoAttempt
  }

  /** The email has a record whose lockout lies strictly after `now`. */
  predicate IsLockedOut(failedLogins: map<string, LoginAttempt>, email: string, now: nat): (locked: bool)
    // the zero lockout read for a missing record never locks, so the presence test changes nothing
    ensures locked <==> AttemptOf(failedLogins, email).lockout > now
  {
    email in failedLogins && failedLogins[email].lockout > now
  }

  /** What verification decided, before the user lookup. */
  datatype Check = Locked(wait: int) | NoValidOTP | Mismatch(lockedNow: bool) | Match

  /** The decision of one verification together with both stores afterwards. */
  datatype Verdict = Verdict(check: Check, otpStorage: map<string, OTPData>, failedLogins: map<string, LoginAttempt>)

  /** One verification of `otp` for `email` at `now`, as a function of the two stores. */
  function Verify(otpStorage: map<string, OTPData>, failedLogins: map<string, LoginAttempt>,
                  email: string, otp: string, now: nat): (v: Verdict)
    // a lockout is checked first and touches nothing
    ensures v.check.Locked? <==> IsLockedOut(failedLogins, email, now)
    ensures v.check.Locked? ==> v.check.wait == failedLogins[email].lockout - now > 0
    ensures v.check.Locked? ==> v.otpStorage == otpStorage && v.failedLogins == failedLogins
    // otherwise the code store is read, and a missing or stale code is swept
    ensures !v.check.Locked? ==> v.otpStorage == Swept(otpStorage, email, now)
    // no usable code: not counted as a failure
    ensures v.check.NoValidOTP? <==> !IsLockedOut(failedLogins, email, now) && Retrieved(otpStorage, email, now) == ""
    ensures v.check.NoValidOTP? ==> v.failedLogins == failedLogins
    // a wrong code is counted, and locks at the threshold
    ensures v.check.Mismatch? <==>
      !IsLockedOut(failedLogins, email, now) && Retrieved(otpStorage, email, now) !in {"", otp}
    ensures v.check.Mismatch? ==>
      && email in v.failedLogins
      && v.failedLogins[email].attempts == AttemptOf(failedLogins, email).attempts + 1
      && v.failedLogins[email].lastAttempt == now
      && (v.check.lockedNow <==> v.failedLogins[email].attempts >= LockoutThreshold)
      && v.failedLogins[email].lockout ==
           if v.check.lockedNow then now + LockoutDuration else AttemptOf(failedLogins, email).lockout
    // the right code clears the record but leaves the code in place
    ensures v.check.Match? <==>
      !IsLockedOut(failedLogins, email, now) && Retrieved(otpStorage, email, now) == otp != ""
    ensures v.check.Match? ==> email !in v.failedLogins && v.otpStorage == otpStorage
    // no other email is affected
    ensures forall k :: k != email ==> (k in v.failedLogins <==> k in failedLogins)
    ensures forall k :: k != email && k in v.failedLogins ==> v.failedLogins[k] == failedLogins[k]
  {
    if IsLockedOut(failedLogins, email, now) then
      Verdict(Locked(failedLogins[email].lockout - now), otpStorage, failedLogins)
    else
      var stored := Retrieved(otpStorage, email, now);
      var swept := Swept(otpStorage, email, now);
      if stored == "" then
        Verdict(NoValidOTP, swept, failedLogins)
      else if otp != stored then
        var attempt := AttemptOf(failedLogins, email);
        var counted := attempt.(attempts := attempt.attempts + 1, lastAttempt := now);
        if counted.attempts >= LockoutThreshold then
          Verdict(Mismatch(true), swept, failedLogins[email := counted.(lockout := now + LockoutDuration)])
        else
          Verdict(Mismatch(false), swept, failedLogins[email := counted])
      else
        Verdict(Match, swept, failedLogins - {email})
  }

  /** The handler's answer for a verification decision and the lookup result.
      A refusal reports the remaining wait; a new lockout reports its full length. */
  function Respond(check: Check, lookup: Lookup): (out: Outcome)
    ensures out.TooManyAttempts? <==> check.Locked? || check == Mismatch(true)
    ensures check.Locked? ==> out.wait == check.wait
    ensures check == Mismatch(true) ==> out.wait == LockoutDuration
    ensures out == InvalidOTP <==> check.NoValidOTP? || check == Mismatch(false)
    ensures out.LoginSuccessful? <==> check.Match? && lookup.Found?
    ensures out.LoginSuccessful? ==> out.userID == lookup.userID
    ensures out == UserLookupFailed <==> check.Match? && lookup.LookupError?
  {
    match check
    case Locked(wait) => TooManyAttempts(wait)
    case NoValidOTP => InvalidOTP
    case Mismatch(lockedNow) => if lockedNow then TooManyAttempts(LockoutDuration) else InvalidOTP
    case Match => if lookup.Found? then LoginSuccessful(lookup.userID) else UserLookupFailed
  }

  /** A single failed verification is answered InvalidOTP or TooManyAttempts,
      whether the code was wrong, expired or never issued. */
  lemma FailedVerifyAnswers(otpStorage: map<string, OTPData>, failedLogins: map<string, LoginAttempt>,
                          email: string, otp: string, now: nat, lookup: Lookup)
    requires !Verify(otpStorage, failedLogins, email, otp, now).check.Match?
    ensures Respond(Verify(otpStorage, failedLogins, email, otp, now).check, lookup) == InvalidOTP ||
            Respond(Verify(otpStorage, failedLogins, email, otp, now).check, lookup).TooManyAttempts?
  {
  }

  /** A wrong code below the threshold gets the same answer as the same
      submission with no code pending: InvalidOTP. */
  lemma WrongCodeLooksLikeNoCode(otpStorage: map<string, OTPData>, failedLogins: map<string, LoginAttempt>,
                                 email: string, otp: string, now: nat, lookup: Lookup)
    requires Verify(otpStorage, failedLogins, email, otp, now).check == Mismatch(false)
    ensures Respond(Verify(otpStorage, failedLogins, email, otp, now).check, lookup) == InvalidOTP
    ensures Respond(Verify(otpStorage - {email}, failedLogins, email, otp, now).check, lookup) == InvalidOTP
  {
  }

  /** The login controller: the process-wide record of failed verifications,
      and the code store it shares with the rest of the process. */
  class AuthService {
    var failedLogins: map<string, LoginAttempt>
    const otps: OtpStore

    constructor (otps: OtpStore)
      ensures this.otps == otps && failedLogins == map[]
      ensures RecordsWellFormed(failedLogins)
    {
      this.otps := otps;
      failedLogins := map[];
    }

    /** Verifies `otp` for `email` at `now`; on success binds the looked-up user to the session. */
    method VerifyOTP(email: string, otp: string, now: nat, session: Session, lookup: Lookup) returns (out: Outcome)
      requires session.Valid()
      modifies this, otps, session
      ensures session.Valid()
      ensures RecordsWellFormed(old(failedLogins)) ==> RecordsWellFormed(failedLogins)
      ensures
        var v := Verify(old(otps.otpStorage), old(failedLogins), email, otp, now);
        && otps.otpStorage == v.otpStorage
        && failedLogins == v.failedLogins
        && out == Respond(v.check, lookup)
        && session.values ==
             if v.check.Match? && lookup.Found?
             then old(session.values)["userID" := Str(lookup.userID)]["username" := Str(email)]
             else old(session.values)
    {
      var attempt := NoAttempt;
      var ok := email in failedLogins;
      if ok {
        attempt := failedLogins[email];
      }
      if ok && attempt.lockout > now {
        return TooManyAttempts(attempt.lockout - now);
      }

      var storedOTP := otps.RetrieveOTP(email, now);
      if storedOTP == "" {
        return InvalidOTP;
      }

      if otp != storedOTP {
        attempt := attempt.(attempts := attempt.attempts + 1, lastAttempt := now);
        if attempt.attempts >= LockoutThreshold {
          attempt := attempt.(lockout := now + LockoutDuration);
          failedLogins := failedLogins[email := attempt];
          return TooManyAttempts(LockoutDuration);
        }
        failedLogins := failedLogins[email := attempt];
        return InvalidOTP;
      }

      // a match forgets every earlier failure of this email
      failedLogins := failedLogins - {email};

      match lookup
      case LookupError =>
        return UserLookupFailed;
      case Found(userID) =>
        session.values := session.values["userID" := Str(userID)];
        session.values := session.values["username" := Str(email)];
        return LoginSuccessful(userID);
    }

    /** Issues a code for `email` at `now`: refuses a logged-in session and a
        locked email, else generates and stores a code and then mails it.
        `draws` stands for the random source, `sendOk` for the mail sender's answer. */
    method RequestLogin(email: string, now: nat, session: Session, draws: seq<Draw>, sendOk: bool)
      returns (out: Outcome, mail: Mail)
      requires session.HasUser()
      requires OtpLength <= |draws|
      modifies otps
      ensures !IsGuest(session.UserID()) ==>
        out == AlreadyLoggedIn(session.UserID()) && mail == NoMail && otps.otpStorage == old(otps.otpStorage)
      ensures IsGuest(session.UserID()) && IsLockedOut(failedLogins, email, now) ==>
        out == TooManyAttempts(failedLogins[email].lockout - now) && mail == NoMail &&
        otps.otpStorage == old(otps.otpStorage)
      ensures IsGuest(session.UserID()) && !IsLockedOut(failedLogins, email, now) && !AllDrawn(draws[..OtpLength]) ==>
        out == GenerateFailed && mail == NoMail && otps.otpStorage == old(otps.otpStorage)
      ensures IsGuest(session.UserID()) && !IsLockedOut(failedLogins, email, now) && AllDrawn(draws[..OtpLength]) ==>
        var code := Image(draws[..OtpLength]);
        && otps.otpStorage == old(otps.otpStorage)[email := OTPData(code, now)]
        && mail == Mail(email, MailSubject, MailBodyPrefix + code)
        && out == (if sendOk then OTPSent else SendFailed)
    {
      mail := NoMail;
      var id := session.values["userID"].s;
      if !IsGuest(id) {
        return AlreadyLoggedIn(id), mail;
      }

      var ok := email in failedLogins;
      if ok && failedLogins[email].lockout > now {
        return TooManyAttempts(failedLogins[email].lockout - now), mail;
      }

      var otp, failed := GenerateOTP(OtpLength, draws);
      if failed {
        return GenerateFailed, mail;
      }

      // the code is stored before the mail is sent, and stays stored if sending fails
      otps.StoreOTP(email, otp, now);

      mail := Mail(email, MailSubject, MailBodyPrefix + otp);
      if !sendOk {
        return SendFailed, mail;
      }
      out := OTPSent;
    }
  }

  /** One submitted code and the time it was submitted. */
  datatype Try = Try(otp: string, at: nat)

  /** The decisions of successive verifications of one email, and both stores afterwards. */
  datatype Run = Run(checks: seq<Check>, otpStorage: map<string, OTPData>, failedLogins: map<string, LoginAttempt>)

  function VerifyAll(otpStorage: map<string, OTPData>, failedLogins: map<string, LoginAttempt>,
                     email: string, tries: seq<Try>): (r: Run)
    ensures |r.checks| == |tries|
    decreases |tries|
  {
    if tries == [] then Run([], otpStorage, failedLogins)
    else
      var v := Verify(otpStorage, failedLogins, email, tries[0].otp, tries[0].at);
      var rest := VerifyAll(v.otpStorage, v.failedLogins, email, tries[1..]);
      Run([v.check] + rest.checks, rest.otpStorage, rest.failedLogins)
  }

  /** Every try submits a wrong code while the stored code is still live. */
  predicate WrongWhileLive(otpStorage: map<string, OTPData>, email: string, tries: seq<Try>)
  {
    && email in otpStorage
    && otpStorage[email].otp != ""
    && forall i :: 0 <= i < |tries| ==>
         tries[i].at - otpStorage[email].createdAt <= OtpExpiration && tries[i].otp != otpStorage[email].otp
  }

  /** Starting from `k` earlier failures and no lockout, wrong codes are counted
      one by one: the i-th is answered as a failure that locks exactly when
      k + i + 1 reaches the threshold, and the stored code is never dropped. */
  lemma {:induction false} WrongCodesCount(otpStorage: map<string, OTPData>, failedLogins: map<string, LoginAttempt>,
                                          email: string, tries: seq<Try>, k: nat)
    requires WrongWhileLive(otpStorage, email, tries)
    requires AttemptOf(failedLogins, email).attempts == k && AttemptOf(failedLogins, email).lockout == 0
    requires k + |tries| <= LockoutThreshold
    ensures var r := VerifyAll(otpStorage, failedLogins, email, tries);
      && r.otpStorage == otpStorage
      && (forall i :: 0 <= i < |tries| ==> r.checks[i] == Mismatch(k + i + 1 >= LockoutThreshold))
      && AttemptOf(r.failedLogins, email).attempts == k + |tries|
      && (k + |tries| < LockoutThreshold ==> AttemptOf(r.failedLogins, email).lockout == 0)
      && (k + |tries| == LockoutThreshold && tries != [] ==>
            AttemptOf(r.failedLogins, email).lockout == tries[|tries| - 1].at + LockoutDuration)
    decreases |tries|
  {
    if tries != [] {
      var v := Verify(otpStorage, failedLogins, email, tries[0].otp, tries[0].at);
      assert v.check == Mismatch(k + 1 >= LockoutThreshold);
      assert WrongWhileLive(v.otpStorage, email, tries[1..]) by {
        assert v.otpStorage == otpStorage;
        forall i | 0 <= i < |tries[1..]|
          ensures tries[1..][i].at - otpStorage[email].createdAt <= OtpExpiration
          ensures tries[1..][i].otp != otpStorage[email].otp
        {
          assert tries[1..][i] == tries[i + 1];
        }
      }
      if k + 1 < LockoutThreshold {
        WrongCodesCount(v.otpStorage, v.failedLogins, email, tries[1..], k + 1);
        var r := VerifyAll(otpStorage, failedLogins, email, tries);
        forall i | 0 <= i < |tries|
          ensures r.checks[i] == Mismatch(k + i + 1 >= LockoutThreshold)
        {
          if i > 0 {
            assert r.checks[i] == VerifyAll(v.otpStorage, v.failedLogins, email, tries[1..]).checks[i - 1];
          }
        }
      } else {
        assert tries[1..] == [];
      }
    }
  }

  /** Five wrong codes in a row from a clean record: four InvalidOTP answers,
      then a lockout; any sixth try before the lockout ends is refused, whatever code it carries. */
  lemma FiveWrongCodesLockOut(otpStorage: map<string, OTPData>, failedLogins: map<string, LoginAttempt>,
                              email: string, tries: seq<Try>, sixth: Try, lookup: Lookup)
    requires email !in failedLogins
    requires |tries| == 5 && WrongWhileLive(otpStorage, email, tries)
    requires sixth.at < tries[4].at + LockoutDuration
    ensures var r := VerifyAll(otpStorage, failedLogins, email, tries);
      && (forall i :: 0 <= i < 4 ==> Respond(r.checks[i], lookup) == InvalidOTP)
      && Respond(r.checks[4], lookup) == TooManyAttempts(LockoutDuration)
      && Verify(r.otpStorage, r.failedLogins, email, sixth.otp, sixth.at).check.Locked?
  {
    WrongCodesCount(otpStorage, failedLogins, email, tries, 0);
  }

  /** The count is not reset when a lockout lapses: once an email has reached the
      threshold, the first wrong code after the lockout ends locks it again at once. */
  lemma LapsedLockoutRelocks(otpStorage: map<string, OTPData>, failedLogins: map<string, LoginAttempt>,
                             email: string, otp: string, now: nat)
    requires email in failedLogins && failedLogins[email].attempts >= LockoutThreshold
    requires failedLogins[email].lockout <= now
    requires Retrieved(otpStorage, email, now) !in {"", otp}
    ensures var v := Verify(otpStorage, failedLogins, email, otp, now);
      && v.check == Mismatch(true)
      && v.failedLogins[email].attempts > LockoutThreshold
      && v.failedLogins[email].lockout == now + LockoutDuration
  {
  }

  /** A lockout lasts exactly LockoutDuration: refused just before it ends, and
      the code is compared again from the moment it ends. */
  lemma LockoutBoundary(otpStorage: map<string, OTPData>, failedLogins: map<string, LoginAttempt>,
                        email: string, otp: string, lockedAt: nat, now: nat)
    requires email in failedLogins && failedLogins[email].lockout == lockedAt + LockoutDuration
    ensures now < lockedAt + LockoutDuration ==>
      Verify(otpStorage, failedLogins, email, otp, now).check == Locked(lockedAt + LockoutDuration - now)
    ensures now >= lockedAt + LockoutDuration ==>
      !Verify(otpStorage, failedLogins, email, otp, now).check.Locked?
  {
  }

  /** A successful verification keeps the code: the same code verifies again
      inside the window, and the next wrong code is counted from one. */
  lemma SuccessKeepsCodeAndResetsCount(otpStorage: map<string, OTPData>, failedLogins: map<string, LoginAttempt>,
                                       email: string, otp: string, now: nat, later: nat, wrong: string)
    requires Verify(otpStorage, failedLogins, email, otp, now).check.Match?
    requires later - otpStorage[email].createdAt <= OtpExpiration
    requires wrong != otp
    ensures var v := Verify(otpStorage, failedLogins, email, otp, now);
      && Verify(v.otpStorage, v.failedLogins, email, otp, later).check.Match?
      && Verify(v.otpStorage, v.failedLogins, email, wrong, later).check == Mismatch(false)
      && Verify(v.otpStorage, v.failedLogins, email, wrong, later).failedLogins[email].attempts == 1
  {
  }

  /** The emailed code verifies while it is live, provided the email is not locked. */
  lemma IssuedCodeVerifies(otpStorage: map<string, OTPData>, failedLogins: map<string, LoginAttempt>,
                           email: string, draws: seq<Draw>, issuedAt: nat, now: nat)
    requires |draws| == OtpLength && AllDrawn(draws)
    requires now - issuedAt <= OtpExpiration
    requires !IsLockedOut(failedLogins, email, now)
    ensures Verify(otpStorage[email := OTPData(Image(draws), issuedAt)], failedLogins, email, Image(draws), now).check.Match?
  {
  }

  /** Once the window has passed, the emailed code is refused as InvalidOTP and
      the failure is not counted. */
  lemma ExpiredCodeRefused(otpStorage: map<string, OTPData>, failedLogins: map<string, LoginAttempt>,
                           email: string, code: string, issuedAt: nat, now: nat)
    requires now - issuedAt > OtpExpiration
    requires !IsLockedOut(failedLogins, email, now)
    ensures var v := Verify(otpStorage[email := OTPData(code, issuedAt)], failedLogins, email, code, now);
      && v.check == NoValidOTP
      && v.failedLogins == failedLogins
      && email !in v.otpStorage
  {
  }

  /** Without a pending code nothing is ever counted: every try is answered
      "no valid OTP" and the failure records are not written. */
  lemma {:induction false} NoCodeNeverCounts(otpStorage: map<string, OTPData>, failedLogins: map<string, LoginAttempt>,
                                            email: string, tries: seq<Try>)
    requires email !in otpStorage && email !in failedLogins
    ensures var r := VerifyAll(otpStorage, failedLogins, email, tries);
      && r.failedLogins == failedLogins
      && r.otpStorage == otpStorage
      && forall i :: 0 <= i < |tries| ==> r.checks[i] == NoValidOTP
    decreases |tries|
  {
    if tries != [] {
      var v := Verify(otpStorage, failedLogins, email, tries[0].otp, tries[0].at);
      assert v.check == NoValidOTP && v.failedLogins == failedLogins;
      assert v.otpStorage == otpStorage by {
        assert otpStorage - {email} == otpStorage;
      }
      NoCodeNeverCounts(otpStorage, failedLogins, email, tries[1..]);
      var r := VerifyAll(otpStorage, failedLogins, email, tries);
      forall i | 0 <= i < |tries|
        ensures r.checks[i] == NoValidOTP
      {
        if i > 0 {
          assert r.checks[i] == VerifyAll(otpStorage, failedLogins, email, tries[1..]).checks[i - 1];
        }
      }
    }
  }

  /** Only a mismatch is counted, so the lockout tells whether a code is pending:
      the same five wrong submissions lock the email when a code is pending, and
      are all answered InvalidOTP, with no record written, when none is. */
  lemma PendingCodeShowsInLockout(otpStorage: map<string, OTPData>, failedLogins: map<string, LoginAttempt>,
                                  email: string, tries: seq<Try>, lookup: Lookup)
    requires email !in failedLogins
    requires |tries| == 5 && WrongWhileLive(otpStorage, email, tries)
    ensures Respond(VerifyAll(otpStorage, failedLogins, email, tries).checks[4], lookup) == TooManyAttempts(LockoutDuration)
    ensures var none := VerifyAll(otpStorage - {email}, failedLogins, email, tries);
      && (forall i :: 0 <= i < 5 ==> Respond(none.checks[i], lookup) == InvalidOTP)
      && none.failedLogins == failedLogins
  {
    WrongCodesCount(otpStorage, failedLogins, email, tries, 0);
    NoCodeNeverCounts(otpStorage - {email}, failedLogins, email, tries);
  }

  /** Every record holds at least one failure, and a record below the threshold
      has never been locked (its lockout is still the unset time). */
  predicate RecordsWellFormed(failedLogins: map<string, LoginAttempt>)
  {
    forall k :: k in failedLogins ==>
      failedLogins[k].attempts >= 1 && (failedLogins[k].attempts < LockoutThreshold ==> failedLogins[k].lockout == 0)
  }

  /** Verification keeps the records well formed, so the state WrongCodesCount
      starts from (k failures, no lockout, k below the threshold) is the reachable one. */
  lemma RecordsStayWellFormed(otpStorage: map<string, OTPData>, failedLogins: map<string, LoginAttempt>,
                              email: string, otp: string, now: nat)
    requires RecordsWellFormed(failedLogins)
    ensures RecordsWellFormed(Verify(otpStorage, failedLogins, email, otp, now).failedLogins)
    ensures AttemptOf(failedLogins, email).attempts < LockoutThreshold ==> AttemptOf(failedLogins, email).lockout == 0
  {
  }

  /** A first visit end to end: the middleware makes the visitor a guest, the
      login request stores and mails a code, and submitting the mailed code
      while it is live logs the visitor in as the looked-up user. */
  method RequestThenVerify(service: AuthService, session: Session, email: string, uuid: string,
                           draws: seq<Draw>, now: nat, later: nat, userID: string)
    returns (requested: Outcome, verified: Outcome)
    requires session.Valid() && session.UserIDValue().Nil?
    requires OtpLength <= |draws| && AllDrawn(draws[..OtpLength])
    requires !IsLockedOut(service.failedLogins, email, now) && !IsLockedOut(service.failedLogins, email, later)
    requires later - now <= OtpExpiration
    modifies service, service.otps, session
    ensures requested == OTPSent
    ensures verified == LoginSuccessful(userID)
    ensures session.HasUser() && session.UserID() == userID && session.Username() == email
    ensures email !in service.failedLogins
    ensures email in service.otps.otpStorage && service.otps.otpStorage[email] == OTPData(Image(draws[..OtpLength]), now)
  {
    var gate := session.Middleware(LoginPath, uuid);
    var mail;
    requested, mail := service.RequestLogin(email, now, session, draws, true);
    var code := mail.body[|MailBodyPrefix|..];
    assert code == Image(draws[..OtpLength]);
    gate := session.Middleware("/verify-otp", uuid);
    verified := service.VerifyOTP(email, code, later, session, Found(userID));
  }
}
