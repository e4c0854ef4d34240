/** The one-time-code gate (`OTPVerification`): a code of six UTF-16 code units is sent
    to the auth server's verification endpoint; `onVerified` is called back on
    success only. */
module OtpVerification {
  import opened Common
  import opened Store

  const CodeLength: nat := 6

  /** The message shown when verification fails: the server's message, or a
      fixed fallback when that message is empty (`error.message || …`). */
  function FailureText(serverMessage: string): (t: string)
    ensures t != []
    ensures serverMessage != [] ==> t == serverMessage
    ensures serverMessage == [] ==> t == "Invalid verification code"
  {
    if serverMessage == "" then "Invalid verification code" else serverMessage
  }

  /** What `InputOTP` with `maxLength={6}` keeps of a typed value: the
      longest prefix of at most six UTF-16 code units. */
  function Capped(value: string): (c: string)
    ensures Utf16Length(c) <= CodeLength && |c| <= |value|
    ensures c == value[..|c|]
    ensures Utf16Length(value) <= CodeLength ==> c == value
    ensures |c| < |value| ==> Utf16Length(c) + Utf16Units(value[|c|]) > CodeLength
  {
    Utf16Prefix(value, CodeLength)
  }

  /** The verify request for a code: the prop email, the code as token, type "email". */
  function VerifyRequest(email: string, code: string): (r: AuthRequest)
    ensures r.VerifyOtp? && r.email == email && r.token == code && r.otpType == "email"
  {
    VerifyOtp(email, code, "email")
  }

  class OtpGate {
    /** The `email` prop. */
    const email: string
    var otp: string
    var isVerifying: bool
    /** Verification requests sent and not yet answered. */
    var pending: nat
    /** How many times `onVerified` has been called. */
    var verifiedCalls: nat
    var toasts: seq<Toast>

    ghost predicate Valid()
      reads this
    {
      Utf16Length(otp) <= CodeLength
    }

    constructor (email0: string)
      ensures Valid() && email == email0 && otp == "" && !isVerifying
      ensures pending == 0 && verifiedCalls == 0 && toasts == []
    {
      email := email0;
      otp, isVerifying, pending, verifiedCalls, toasts := "", false, 0, 0, [];
    }

    /** The Verify button's enable rule: not verifying, and a code of exactly
      six UTF-16 code units. */
    predicate VerifyEnabled()
      reads this
    {
      !isVerifying && Utf16Length(otp) == CodeLength
    }

    /** The input's `onChange`. */
    method SetOtp(value: string)
      requires Valid()
      modifies this
      ensures Valid() && otp == Capped(value)
      ensures isVerifying == old(isVerifying) && pending == old(pending)
      ensures verifiedCalls == old(verifiedCalls) && toasts == old(toasts)
    {
      otp := Capped(value);
    }

    /** `handleVerify` up to its `await`: a code whose `.length` is not six is refused
        locally; otherwise the flag is raised and the request is sent. */
    method HandleVerify(auth: AuthClient)
      requires Valid()
      modifies this, auth
      ensures Valid() && otp == old(otp) && verifiedCalls == old(verifiedCalls)
      ensures Utf16Length(otp) != CodeLength ==>
        auth.requests == old(auth.requests) && toasts == old(toasts) + [Error("Please enter a 6-digit code")] &&
        isVerifying == old(isVerifying) && pending == old(pending)
      ensures Utf16Length(otp) == CodeLength ==>
        auth.requests == old(auth.requests) + [VerifyRequest(email, otp)] && toasts == old(toasts) &&
        isVerifying && pending == old(pending) + 1
    {
      if Utf16Length(otp) != CodeLength {
        toasts := toasts + [Error("Please enter a 6-digit code")];
        return;
      }
      isVerifying := true;
      auth.Send(VerifyRequest(email, otp));
      pending := pending + 1;
    }

    /** A click on the Verify button, which reaches `handleVerify` only while
        the button is enabled: never during a verification, and never
        without six code units, so the length check inside never fires. */
    method ClickVerify(auth: AuthClient)
      requires Valid()
      modifies this, auth
      ensures Valid() && otp == old(otp) && verifiedCalls == old(verifiedCalls) && toasts == old(toasts)
      ensures !old(VerifyEnabled()) ==>
        auth.requests == old(auth.requests) && isVerifying == old(isVerifying) && pending == old(pending)
      ensures old(VerifyEnabled()) ==>
        auth.requests == old(auth.requests) + [VerifyRequest(email, otp)] && isVerifying && pending == old(pending) + 1
    {
      if VerifyEnabled() {
        HandleVerify(auth);
      }
    }

    /** The answer to one pending request arrives: `error` is `None` on
        success, else the server's message. The `finally` lowers the flag
        whatever the outcome. */
    method VerifyAnswered(error: Option<string>)
      requires Valid() && pending > 0
      modifies this
      ensures Valid() && otp == old(otp) && !isVerifying && pending == old(pending) - 1
      ensures error.None? ==>
        verifiedCalls == old(verifiedCalls) + 1 && toasts == old(toasts) + [Info("Email verified successfully!")]
      ensures error.Some? ==>
        verifiedCalls == old(verifiedCalls) && toasts == old(toasts) + [Error(FailureText(error.value))]
    {
      if error.None? {
        toasts := toasts + [Info("Email verified successfully!")];
        verifiedCalls := verifiedCalls + 1;
      } else {
        toasts := toasts + [Error(FailureText(error.value))];
      }
      isVerifying := false;
      pending := pending - 1;
    }
  }
}
