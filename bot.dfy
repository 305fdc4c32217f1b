/**
  The chat-bot side: code generation and the process-wide in-memory
  store `verification_codes`, updated in place and purged before every save.
 */
module Bot {

  import opened Wrappers
  import opened VerificationStore

  /** `string.digits`. */
  const Digits: string := "0123456789"

  /** A draw of the random source: four indices into `Digits`. */
  predicate IsDraw(picks: seq<nat>) {
    |picks| == CodeLength && forall i | 0 <= i < |picks| :: picks[i] < |Digits|
  }

  lemma DigitAt(k: nat)
    requires k < |Digits|
    ensures Digits[k] as int == '0' as int + k
  {
  }

  /** `generate_code`: joins the four digits the random source picked. */
  function GenerateCode(picks: seq<nat>): (code: string)
    requires IsDraw(picks)
    ensures IsCode(code)
    ensures CodePicks(code) == picks
  {
    var code := seq(|picks|, i requires 0 <= i < |picks| => Digits[picks[i]]);
    forall i | 0 <= i < |picks| ensures IsDigit(code[i]) && code[i] as int - '0' as int == picks[i] {
      DigitAt(picks[i]);
    }
    code
  }

  /** The draw a well-formed code came from: the value of each digit. */
  function CodePicks(code: string): (picks: seq<nat>)
    requires IsCode(code)
    ensures IsDraw(picks)
  {
    seq(|code|, i requires 0 <= i < |code| => (code[i] as int - '0' as int) as nat)
  }

  /** Every four-digit code, "0000" to "9999", is the result of exactly one draw. */
  lemma EveryCodeIsGenerated(code: string)
    requires IsCode(code)
    ensures GenerateCode(CodePicks(code)) == code
  {
  }

  lemma GenerateCodeInjective(p: seq<nat>, q: seq<nat>)
    requires IsDraw(p) && IsDraw(q)
    requires GenerateCode(p) == GenerateCode(q)
    ensures p == q
  {
  }

  /** The bot process's store: the global `verification_codes` dict. */
  class CodeStore {

    var codes: Store

    /** Every stored code is a four-digit code, as when every entry came from `generate_code`. */
    ghost predicate WellFormed()
      reads this
    {
      AllCodes(codes)
    }

    /** The module-level `verification_codes = {}`. */
    constructor ()
      ensures codes == map[]
      ensures WellFormed()
    {
      codes := map[];
    }

    /**
      `save_verification_data`, without the file write: keeps exactly the
      entries whose expiry is strictly after `now`.
     */
    method SaveVerificationData(now: Instant)
      modifies this
      ensures codes == Purge(old(codes), now)
      ensures forall u :: u in codes <==> u in old(codes) && Live(old(codes)[u], now)
      ensures forall u | u in codes :: codes[u] == old(codes)[u]
      ensures old(WellFormed()) ==> WellFormed()
    {
      var valid := Purge(codes, now);
      codes := map[];
      codes := codes + valid;
    }

    /** `save_verification`: records `code` for `userId` with a one-minute expiry, then saves. */
    method SaveVerification(userId: string, code: string, now: Instant)
      modifies this
      ensures codes == Purge(old(codes)[userId := Entry(code, now + Ttl)], now)
      ensures userId in codes && codes[userId] == Entry(code, now + Ttl)
      ensures forall u | u in old(codes) && u != userId ::
                u in codes <==> Live(old(codes)[u], now)
      ensures forall u | u in codes && u != userId :: u in old(codes) && codes[u] == old(codes)[u]
      ensures old(WellFormed()) && IsCode(code) ==> WellFormed()
    {
      var expireTime := now + Ttl;
      codes := codes[userId := Entry(code, expireTime)];
      SaveVerificationData(now);
    }

    /**
      What the `start` command does with the store: generate a code from
      the random draw and save it for the requesting user.
     */
    method IssueCode(userId: string, picks: seq<nat>, now: Instant) returns (code: string)
      requires IsDraw(picks)
      modifies this
      ensures IsCode(code) && code == GenerateCode(picks)
      ensures codes == Purge(old(codes)[userId := Entry(code, now + Ttl)], now)
      ensures Lookup(codes, userId, now) == Some(code)
      ensures forall t | now + Ttl <= t :: Lookup(codes, userId, t) == None
      ensures old(WellFormed()) ==> WellFormed()
    {
      code := GenerateCode(picks);
      SaveVerification(userId, code, now);
    }

    /**
      `get_verification`: the code of a live entry; an entry found expired
      is deleted and the store saved (which also purges every other expired entry).
     */
    method GetVerification(userId: string, now: Instant) returns (r: Option<string>)
      modifies this
      ensures r == Lookup(old(codes), userId, now)
      ensures r.Some? <==> userId in old(codes) && Live(old(codes)[userId], now)
      ensures r.Some? ==> r.value == old(codes)[userId].code
      ensures userId in old(codes) && !Live(old(codes)[userId], now) ==>
                codes == Purge(old(codes) - {userId}, now) && userId !in codes
      ensures userId !in old(codes) || Live(old(codes)[userId], now) ==> codes == old(codes)
      ensures forall u | u in codes :: u in old(codes) && codes[u] == old(codes)[u]
      ensures forall u | u in old(codes) && u !in codes :: !Live(old(codes)[u], now)
      ensures old(WellFormed()) ==> WellFormed()
    {
      if userId in codes {
        var data := codes[userId];
        var expireTime := data.expiresAt;
        if now < expireTime {
          return Some(data.code);
        } else {
          codes := codes - {userId};
          SaveVerificationData(now);
        }
      }
      return None;
    }

    /**
      Bot-side `verify_code`: returns `userId` when the live code equals
      `code` (and, as in Python, the stored code is non-empty), removing the
      entry so that it cannot be used again.
     */
    method VerifyCode(userId: string, code: string, now: Instant) returns (r: Option<string>)
      modifies this
      ensures r.Some? <==> Lookup(old(codes), userId, now) == Some(code) && code != ""
      ensures old(WellFormed()) ==> (r.Some? <==> Lookup(old(codes), userId, now) == Some(code))
      ensures r.Some? ==> r.value == userId
      ensures r.Some? ==> codes == Purge(old(codes) - {userId}, now)
      ensures r.Some? ==> userId !in codes
      ensures Lookup(old(codes), userId, now).Some? && r.None? ==> codes == old(codes)
      ensures userId !in old(codes) ==> r.None? && codes == old(codes)
      ensures userId in old(codes) && !Live(old(codes)[userId], now) ==>
                r.None? && codes == Purge(old(codes) - {userId}, now)
      ensures forall u | u in codes :: u in old(codes) && codes[u] == old(codes)[u]
      ensures forall u | u in old(codes) && u !in codes && u != userId :: !Live(old(codes)[u], now)
      ensures old(WellFormed()) ==> WellFormed()
    {
      var storedCode := GetVerification(userId, now);
      if storedCode.Some? && storedCode.value != "" && storedCode.value == code {
        codes := codes - {userId};
        SaveVerificationData(now);
        return Some(userId);
      }
      return None;
    }
  }
}
