/** One-time codes: generation from a random source, and the process-wide
    store that maps an email to its code and issue time, with lazy expiry.
    Times are nanoseconds on a clock whose readings are natural numbers. */
module Otp {

  const Minute: nat := 60_000_000_000

  /** How long a stored code stays valid. */
  const OtpExpiration: nat := 5 * Minute

  /** The alphabet the code is drawn from. */
  const Digits: string := "0123456789"

  /** An index into Digits, as produced by a draw over [0, 10). */
  type DigitIndex = i: int | 0 <= i < 10

  /** One draw from the secure random source: a value in [0, 10), or a read failure. */
  datatype Draw = Drawn(index: DigitIndex) | ReadFailed

  predicate AllDrawn(draws: seq<Draw>)
  {
    forall i :: 0 <= i < |draws| ==> draws[i].Drawn?
  }

  predicate IsNumeric(s: string)
  {
    forall i :: 0 <= i < |s| ==> '0' <= s[i] <= '9'
  }

  /** The code spelled by a sequence of successful draws, one digit per draw, in order. */
  function Image(draws: seq<Draw>): (code: string)
    requires AllDrawn(draws)
    ensures |code| == |draws|
    ensures forall i :: 0 <= i < |draws| ==> code[i] == Digits[draws[i].index]
    ensures IsNumeric(code)
  {
    if draws == [] then ""
    else Image(draws[..|draws| - 1]) + [Digits[draws[|draws| - 1].index]]
  }

  /** The number of loop iterations for a requested length (none when it is negative). */
  function Width(length: int): nat
  {
    if length < 0 then 0 else length
  }

  /** Builds a code of `length` digits, one draw per digit. A failed draw aborts
      with the empty string: no partial code escapes. */
  method GenerateOTP(length: int, draws: seq<Draw>) returns (otp: string, failed: bool)
    requires length <= |draws|
    ensures failed <==> !AllDrawn(draws[..Width(length)])
    ensures failed ==> otp == ""
    ensures !failed ==> otp == Image(draws[..Width(length)])
    ensures !failed ==> |otp| == Width(length) && IsNumeric(otp)
  {
    otp := "";
    var i := 0;
    while i < length
      invariant 0 <= i <= Width(length)
      invariant AllDrawn(draws[..i])
      invariant otp == Image(draws[..i])
    {
      if draws[i].ReadFailed? {
        assert !draws[..Width(length)][i].Drawn?;
        return "", true;
      }
      assert draws[..i + 1][..i] == draws[..i];
      otp := otp + [Digits[draws[i].index]];
      i := i + 1;
    }
    assert i == Width(length);
    failed := false;
  }

  /** A stored code and the time it was stored. */
  datatype OTPData = OTPData(otp: string, createdAt: nat)

  /** The entry for `email` exists and has not outlived the expiration window.
      The window is closed: an entry exactly OtpExpiration old is still live. */
  predicate Live(m: map<string, OTPData>, email: string, now: nat): (live: bool)
    ensures live <==> email in m && now <= m[email].createdAt + OtpExpiration
  {
    email in m && now - m[email].createdAt <= OtpExpiration
  }

  /** What a retrieve at `now` returns: the live code, or "" for a missing or stale entry. */
  function Retrieved(m: map<string, OTPData>, email: string, now: nat): (code: string)
    ensures Live(m, email, now) ==> code == m[email].otp
    ensures code != "" ==> Live(m, email, now) && code == m[email].otp
  {
    if Live(m, email, now) then m[email].otp else ""
  }

  /** The store after a retrieve at `now`: a missing or stale entry is removed. */
  function Swept(m: map<string, OTPData>, email: string, now: nat): (m': map<string, OTPData>)
    ensures email in m' <==> Live(m, email, now)
    ensures email in m' ==> m'[email] == m[email]
    ensures forall k :: k != email ==> (k in m' <==> k in m)
    ensures forall k :: k in m' && k != email ==> m'[k] == m[k]
  {
    if Live(m, email, now) then m else m - {email}
  }

  class OtpStore {
    var otpStorage: map<string, OTPData>

    constructor ()
      ensures otpStorage == map[]
    {
      otpStorage := map[];
    }

    /** Records `otp` for `email` at time `now`, replacing any earlier entry. */
    method StoreOTP(email: string, otp: string, now: nat)
      modifies this
      ensures otpStorage == old(otpStorage)[email := OTPData(otp, now)]
    {
      otpStorage := otpStorage[email := OTPData(otp, now)];
    }

    /** Returns the live code for `email`, or "" after removing a missing or stale entry. */
    method RetrieveOTP(email: string, now: nat) returns (otp: string)
      modifies this
      ensures otp == Retrieved(old(otpStorage), email, now)
      ensures otpStorage == Swept(old(otpStorage), email, now)
      ensures !Live(old(otpStorage), email, now) ==> otp == "" && email !in otpStorage
    {
      if email !in otpStorage || now - otpStorage[email].createdAt > OtpExpiration {
        otpStorage := otpStorage - {email};
        return "";
      }
      otp := otpStorage[email].otp;
    }
  }

  /** A store operation, used to replay histories of the store. */
  datatype StoreOp = Store(email: string, otp: string, at: nat) | Retrieve(email: string, at: nat)

  function Apply(m: map<string, OTPData>, op: StoreOp): map<string, OTPData>
  {
    match op
    case Store(e, c, t) => m[e := OTPData(c, t)]
    case Retrieve(e, t) => Swept(m, e, t)
  }

  /** The store after a sequence of operations, applied in order. */
  function Replay(m: map<string, OTPData>, ops: seq<StoreOp>): map<string, OTPData>
    decreases |ops|
  {
    if ops == [] then m else Replay(Apply(m, ops[0]), ops[1..])
  }

  lemma ReplayStep(m: map<string, OTPData>, ops: seq<StoreOp>, i: nat)
    requires i < |ops|
    ensures Replay(m, ops[..i + 1]) == Apply(Replay(m, ops[..i]), ops[i])
    decreases i
  {
    if i > 0 {
      assert ops[..i + 1][1..] == ops[1..][..i];
      assert ops[..i][1..] == ops[1..][..i - 1];
      ReplayStep(Apply(m, ops[0]), ops[1..], i - 1);
    }
  }

  /** Storing and then retrieving with no more than the window elapsed returns
      the stored code and leaves the store as the store left it. */
  lemma StoreThenRetrieve(m: map<string, OTPData>, email: string, otp: string, at: nat, now: nat)
    requires now - at <= OtpExpiration
    ensures Retrieved(m[email := OTPData(otp, at)], email, now) == otp
    ensures Swept(m[email := OTPData(otp, at)], email, now) == m[email := OTPData(otp, at)]
  {
  }

  /** Retrieving after the window has elapsed returns "" and drops the entry. */
  lemma StoreThenExpire(m: map<string, OTPData>, email: string, otp: string, at: nat, now: nat)
    requires now - at > OtpExpiration
    ensures Retrieved(m[email := OTPData(otp, at)], email, now) == ""
    ensures Swept(m[email := OTPData(otp, at)], email, now) == m - {email}
  {
  }

  /** Once a retrieve of `email` has returned "", every later retrieve of `email`
      returns "" as well, whatever else happens to the store, until `email` is stored again. */
  lemma {:induction false} EmptyRetrieveSticks(m: map<string, OTPData>, email: string, now: nat, ops: seq<StoreOp>)
    requires Retrieved(m, email, now) == ""
    requires forall i :: 0 <= i < |ops| ==> !(ops[i].Store? && ops[i].email == email)
    ensures forall i :: 0 <= i < |ops| && ops[i].Retrieve? && ops[i].email == email ==>
      Retrieved(Replay(Swept(m, email, now), ops[..i]), email, ops[i].at) == ""
  {
    var m0 := Swept(m, email, now);
    assert Silent(m0, email);
    forall i | 0 <= i < |ops| && ops[i].Retrieve? && ops[i].email == email
      ensures Retrieved(Replay(m0, ops[..i]), email, ops[i].at) == ""
    {
      SilentPreserved(m0, email, ops, i);
    }
  }

  /** `email` has no entry, or only one holding the empty code. */
  predicate Silent(m: map<string, OTPData>, email: string)
  {
    email !in m || m[email].otp == ""
  }

  lemma {:induction false} SilentPreserved(m: map<string, OTPData>, email: string, ops: seq<StoreOp>, i: nat)
    requires Silent(m, email)
    requires i <= |ops|
    requires forall j :: 0 <= j < |ops| ==> !(ops[j].Store? && ops[j].email == email)
    ensures Silent(Replay(m, ops[..i]), email)
    decreases i
  {
    if i == 0 {
      assert ops[..0] == [];
    } else {
      SilentPreserved(m, email, ops, i - 1);
      ReplayStep(m, ops, i - 1);
    }
  }
}
