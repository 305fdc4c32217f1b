/**
  The web side: `verify_code`, which redeems a code against the map read
  from the shared file, and the `/verify` handler, which turns the inputs,
  the redemption and the outcome of the profile write into a response.
 */
module Web {

  import opened Wrappers
  import opened VerificationStore
  import opened Text

  /**
    Web-side `verify_code`. `loaded` is what `load_verifications` read;
    `written` is the map dumped back to the file, `None` when nothing is written.
   */
  method VerifyCode(loaded: Store, userId: string, code: string, now: Instant)
    returns (accepted: bool, written: Option<Store>)
    ensures accepted <==> userId in loaded && Live(loaded[userId], now) && loaded[userId].code == code
    ensures accepted <==> Lookup(loaded, userId, now) == Some(code)
    ensures accepted ==> written == Some(loaded - {userId})
    ensures accepted ==> written.Some? && userId !in written.value
    ensures !accepted ==> written == None
  {
    var verifications := loaded;
    if userId in verifications {
      var data := verifications[userId];
      var expireTime := data.expiresAt;
      if now < expireTime && data.code == code {
        verifications := verifications - {userId};
        return true, Some(verifications);
      }
    }
    return false, None;
  }

  /** What `save_user_to_firebase` does when called: it returns, or it raises with a message. */
  datatype ProfileWrite = Saved | Raised(error: string)

  /** The JSON reply and its status; `session` is the user id stored in the session, if any. */
  datatype Response = Response(
    status: int,
    success: bool,
    message: string,
    redirect: Option<string>,
    session: Option<string>)

  const MissingInput := Response(400, false, "Telegram ID va kodni kiriting", None, None)
  const InvalidCode := Response(401, false, "Noto'g'ri kod yoki kod muddati tugagan", None, None)
  const DashboardUrl: string := "/dashboard"

  /** The reply on success, which also stores `userId` in the session. */
  function Verified(userId: string): Response {
    Response(200, true, "Tasdiqlash muvaffaqiyatli!", Some(DashboardUrl), Some(userId))
  }

  /** The reply when the profile write raised, quoting the error. */
  function WriteFailed(error: string): Response {
    Response(500, false, "Xatolik yuz berdi: " + error, None, None)
  }

  /** `data.get(key, '')` on the JSON body. */
  function Field(body: map<string, string>, key: string): string {
    if key in body then body[key] else ""
  }

  /** The two inputs of the handler, stripped of surrounding whitespace. */
  function UserIdOf(body: map<string, string>): string {
    Strip(Field(body, "user_id"))
  }

  function CodeOf(body: map<string, string>): string {
    Strip(Field(body, "code"))
  }

  /** Both inputs are present and non-blank, so the store is consulted. */
  predicate HasInputs(body: map<string, string>) {
    UserIdOf(body) != [] && CodeOf(body) != []
  }

  /**
    The response `/verify` chooses from the stripped inputs, whether
    `verify_code` accepted them, and what the profile write did.
    Blank inputs are refused before anything else; a refused code gets one
    reply whatever the reason (wrong or expired); an accepted code gets a
    session only when the profile write returned.
   */
  function Decide(userId: string, code: string, accepted: bool, profile: ProfileWrite): (r: Response)
    ensures r.status == 400 <==> userId == [] || code == []
    ensures r.status == 400 ==> r == MissingInput
    ensures r.status == 401 <==> userId != [] && code != [] && !accepted
    ensures r.status == 401 ==> r == InvalidCode
    ensures r.status == 200 <==> userId != [] && code != [] && accepted && profile.Saved?
    ensures r.status == 200 ==> r == Verified(userId)
    ensures r.status == 500 <==> userId != [] && code != [] && accepted && profile.Raised?
    ensures r.status == 500 ==> r == WriteFailed(profile.error)
    ensures r.success <==> r.status == 200
    ensures r.session.Some? ==> r.status == 200 && r.session == Some(userId)
  {
    if userId == [] || code == [] then MissingInput
    else if accepted then
      match profile
      case Saved => Verified(userId)
      case Raised(e) => WriteFailed(e)
    else InvalidCode
  }

  /**
    The `/verify` handler. `profile` is what the profile write would do
    if attempted; `attempted` names the user whose profile write was attempted.
    The code is consumed (the file is written) whether or not the profile write then fails.
   */
  method Verify(body: map<string, string>, loaded: Store, now: Instant, profile: ProfileWrite)
    returns (resp: Response, written: Option<Store>, attempted: Option<string>)
    ensures !HasInputs(body) ==> written == None && attempted == None
    ensures HasInputs(body) ==>
              var accepted := Lookup(loaded, UserIdOf(body), now) == Some(CodeOf(body));
              && resp == Decide(UserIdOf(body), CodeOf(body), accepted, profile)
              && (written.Some? <==> accepted)
              && (accepted ==> written == Some(loaded - {UserIdOf(body)}) && attempted == Some(UserIdOf(body)))
              && (!accepted ==> attempted == None)
    ensures !HasInputs(body) ==> resp == MissingInput
  {
    var userId := UserIdOf(body);
    var code := CodeOf(body);
    if userId == [] || code == [] {
      return MissingInput, None, None;
    }
    var ok;
    ok, written := VerifyCode(loaded, userId, code, now);
    attempted := if ok then Some(userId) else None;
    resp := Decide(userId, code, ok, profile);
  }

  /**
    Single use across two requests: once a request has been accepted,
    the same request against the map it wrote is refused.
   */
  method VerifyTwice(body: map<string, string>, loaded: Store, now: Instant, later: Instant, profile: ProfileWrite)
    returns (first: Response, second: Response)
    ensures first.status == 200 || first.status == 500 ==> second == InvalidCode
  {
    var written, attempted;
    first, written, attempted := Verify(body, loaded, now, profile);
    if written.Some? {
      second, written, attempted := Verify(body, written.value, later, profile);
    } else {
      second := first;
    }
  }
}
