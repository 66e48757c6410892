/** The client-side session: a `user` record (or none) that every action
    replaces, mirrored to local storage under the key 'user'. The clock's
    ISO text is the parameter `now`; the OAuth redirect is not modelled. */
module AuthProvider {
  import opened Wrappers
  import opened Strings

  datatype AuthUser = AuthUser(
    phoneNumber: string,
    name: string,
    email: Option<string>,
    verificationStatus: string,
    isPremium: bool,
    digiLockerVerified: bool,
    joinedDate: string,
    lastActive: string)

  /** The errors the actions throw. */
  datatype AuthError =
    | NotIndianNumber
    | InvalidNumberFormat
    | NotLoggedIn
    | EmptyName
    | InvalidOtp

  /** `/^[6-9]\d{9}$/`: ten digits, the first of them 6 to 9. */
  predicate ValidIndianPhoneNumber(phone: string)
  {
    |phone| == 10 && '6' <= phone[0] <= '9' && AllDigits(phone)
  }

  /** The checks `login` makes before it creates a user: the '+91' prefix,
      then the ten-digit national number that follows it. `replace("+91", "")`
      removes the first occurrence, which is the prefix itself. */
  function LoginError(phoneNumber: string): (err: Option<AuthError>)
    ensures err.None? <==>
      |phoneNumber| == 13 && phoneNumber[..3] == "+91" && ValidIndianPhoneNumber(phoneNumber[3..])
    ensures !StartsWith(phoneNumber, "+91") <==> err == Some(NotIndianNumber)
  {
    if !StartsWith(phoneNumber, "+91") then Some(NotIndianNumber)
    else if !ValidIndianPhoneNumber(phoneNumber[3..]) then Some(InvalidNumberFormat)
    else None
  }

  /** `verifyOTP`: None stands for the thrown error. Any six characters pass. */
  function VerifyOtp(otp: string): (r: Option<bool>)
    ensures r.Some? <==> |otp| == 6
    ensures r.Some? ==> r.value
  {
    if |otp| != 6 then None else Some(true)
  }

  /** What local storage holds under 'user': nothing (or empty text), the
      JSON of a user, or text that `JSON.parse` rejects. */
  datatype Slot = Empty | Holds(saved: AuthUser) | Unparsable

  class Session {
    var user: Option<AuthUser>
    var stored: Slot

    constructor (storage: Slot)
      ensures user.None? && stored == storage
    {
      user := None;
      stored := storage;
    }

    /** The mount effect: a stored user becomes the session's user, and
        text that does not parse is removed from storage. */
    method Restore()
      modifies this
      ensures old(stored).Holds? ==> user == Some(old(stored).saved) && stored == old(stored)
      ensures old(stored).Empty? ==> user == old(user) && stored == Empty
      ensures old(stored).Unparsable? ==> user == old(user) && stored == Empty
    {
      match stored
      case Holds(saved) =>
        user := Some(saved);
      case Unparsable =>
        stored := Empty;
      case Empty =>
    }

    method Login(phoneNumber: string, now: string) returns (err: Option<AuthError>)
      modifies this
      ensures err == LoginError(phoneNumber)
      ensures err.Some? ==> user == old(user) && stored == old(stored)
      ensures err.None? ==>
        user == Some(AuthUser(phoneNumber, "", None, "unverified", false, false, now, now)) && stored == Holds(user.value)
    {
      err := LoginError(phoneNumber);
      if err.None? {
        user := Some(AuthUser(phoneNumber, "", None, "unverified", false, false, now, now));
        stored := Holds(user.value);
      }
    }

    /** Marks the verification as pending; every other field is kept. */
    method StartDigiLockerVerification() returns (err: Option<AuthError>)
      modifies this
      ensures old(user).None? ==> err == Some(NotLoggedIn) && user == old(user) && stored == old(stored)
      ensures old(user).Some? ==>
        err.None? && user == Some(old(user).value.(verificationStatus := "pending", digiLockerVerified := false))
        && stored == Holds(user.value)
    {
      if user.None? {
        return Some(NotLoggedIn);
      }
      user := Some(user.value.(verificationStatus := "pending", digiLockerVerified := false));
      stored := Holds(user.value);
      err := None;
    }

    /** `checkVerificationStatus`. */
    function CheckVerificationStatus(): (status: string)
      reads this
      ensures user.None? ==> status == "unverified"
      ensures user.Some? && user.value.digiLockerVerified ==> status == "verified"
      ensures user.Some? && !user.value.digiLockerVerified ==> status == user.value.verificationStatus
    {
      if user.None? then "unverified"
      else if user.value.digiLockerVerified then "verified"
      else user.value.verificationStatus
    }

    /** Stores the name as given, untrimmed, unless it is blank. */
    method SetUserName(name: string) returns (err: Option<AuthError>)
      modifies this
      ensures old(user).None? ==> err == Some(NotLoggedIn)
      ensures old(user).Some? && Blank(name) ==> err == Some(EmptyName)
      ensures err.Some? ==> user == old(user) && stored == old(stored)
      ensures old(user).Some? && !Blank(name) ==>
        err.None? && user == Some(old(user).value.(name := name)) && stored == Holds(user.value)
    {
      if user.None? {
        return Some(NotLoggedIn);
      }
      TrimStartEmptyIffBlank(name);
      if TrimStart(name) == "" {
        return Some(EmptyName);
      }
      user := Some(user.value.(name := name));
      stored := Holds(user.value);
      err := None;
    }

    method UpgradeToPremium() returns (err: Option<AuthError>)
      modifies this
      ensures old(user).None? ==> err == Some(NotLoggedIn) && user == old(user) && stored == old(stored)
      ensures old(user).Some? ==> err.None? && user == Some(old(user).value.(isPremium := true)) && stored == Holds(user.value)
    {
      if user.None? {
        return Some(NotLoggedIn);
      }
      user := Some(user.value.(isPremium := true));
      stored := Holds(user.value);
      err := None;
    }

    method Logout()
      modifies this
      ensures user.None? && stored == Empty
    {
      user := None;
      stored := Empty;
    }
  }

  /** The numbers `login` accepts are exactly '+91' followed by ten digits
      starting with 6, 7, 8 or 9. */
  lemma LoginAcceptsIndianMobiles(national: string)
    ensures LoginError("+91" + national).None? <==>
      |national| == 10 && '6' <= national[0] <= '9' && AllDigits(national)
  {
    var phone := "+91" + national;
    assert phone[..3] == "+91";
    assert phone[3..] == national;
  }

  /** A number whose national part starts with 0 to 5 is refused as malformed. */
  lemma LandlinePrefixRefused()
    ensures LoginError("+915123456789") == Some(InvalidNumberFormat)
  {
    var phone := "+915123456789";
    assert StartsWith(phone, "+91");
    assert phone[3..][0] == '5';
  }
}
