/**
  End-to-end scenarios of the code lifecycle: the bot issues a code into its
  store, the store is what the web side reads, and the web side redeems it.
 */
module Scenarios {

  import opened Wrappers
  import opened VerificationStore
  import opened Bot
  import opened Web

  const Second: int := 1_000_000

  /** Code "1234" for user "42", redeemed within the minute: accepted once, then refused. */
  method RedeemWithinWindow(t0: Instant) {
    var bot := new CodeStore();
    var code := bot.IssueCode("42", [1, 2, 3, 4], t0);
    assert code == "1234";
    var ok, written := VerifyCode(bot.codes, "42", "1234", t0 + 30 * Second);
    assert ok;
    var again, rewritten := VerifyCode(written.value, "42", "1234", t0 + 31 * Second);
    assert !again && rewritten == None;
  }

  /** A code presented after its minute is refused, like a wrong code, and nothing is written. */
  method RedeemAfterExpiry(t0: Instant) {
    var bot := new CodeStore();
    var code := bot.IssueCode("7", [5, 6, 7, 8], t0);
    assert code == "5678";
    var late, written := VerifyCode(bot.codes, "7", code, t0 + 61 * Second);
    assert !late && written == None;
    var wrong, written2 := VerifyCode(bot.codes, "7", "0000", t0);
    assert !wrong && written2 == None;
  }

  /** A blank code is answered 400 and nothing is written. */
  method BlankInput(loaded: Store, now: Instant) {
    var resp, written, attempted := Verify(map["user_id" := "42", "code" := " \t"], loaded, now, Saved);
    assert resp == MissingInput && written == None;
  }

  /** The bot-side copy is single use as well, and a reissue replaces the earlier code. */
  method BotRedeemTwice(t0: Instant) {
    var bot := new CodeStore();
    var first := bot.IssueCode("42", [0, 0, 0, 1], t0);
    var second := bot.IssueCode("42", [9, 9, 9, 9], t0 + Second);
    var r := bot.VerifyCode("42", first, t0 + 2 * Second);
    assert r == None;
    r := bot.VerifyCode("42", second, t0 + 2 * Second);
    assert r == Some("42");
    r := bot.VerifyCode("42", second, t0 + 2 * Second);
    assert r == None;
  }
}
