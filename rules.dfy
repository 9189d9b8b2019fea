/**
 * The reward rules and the parsing of the bot's chat inputs, as pure
 * functions: the configured constants, the daily-bonus window, the referral
 * argument of `/start`, promo-code normalisation, the admin's
 * `CODE AMOUNT USES` line, amounts typed by an admin and the amount carried
 * by a withdrawal button.
 */
module Rules {
  import opened Wrappers
  import opened Text

  const ReferralReward: real := 8.5
  const DailyBonus: real := 0.5
  const WithdrawalOptions: seq<int> := [25, 50, 100, 300]
  const SecondsPerDay: int := 86400

  /** `user_id in ADMIN_IDS`. */
  predicate IsAdmin(admins: seq<int>, id: int): (r: bool)
    ensures r <==> exists k | 0 <= k < |admins| :: admins[k] == id
  {
    id in admins
  }

  // ---------------------------------------------------------------- withdrawal threshold

  /** Python's `min()` on a non-empty list. */
  function SeqMin(s: seq<int>): (m: int)
    requires s != []
    ensures m in s
    ensures forall k | 0 <= k < |s| :: m <= s[k]
  {
    if |s| == 1 then s[0]
    else
      var rest := SeqMin(s[1..]);
      if s[0] <= rest then s[0] else rest
  }

  /** `min(WITHDRAWAL_OPTIONS)`: the smallest amount the withdrawal menu offers. */
  function MinWithdrawal(): (m: int)
    ensures m in WithdrawalOptions
    ensures forall k | 0 <= k < |WithdrawalOptions| :: m <= WithdrawalOptions[k]
  {
    SeqMin(WithdrawalOptions)
  }

  lemma MinWithdrawalIs25()
    ensures MinWithdrawal() == 25
  {
  }

  // ---------------------------------------------------------------- daily bonus

  /**
   * `(now - last).days`: the whole days between two instants, rounded down,
   * as `timedelta` normalises a negative difference (seconds count from the epoch).
   */
  function DaysBetween(last: int, now: int): int {
    (now - last) / SecondsPerDay
  }

  /** The bonus is refused when a previous claim exists and less than one whole day has passed. */
  predicate BonusEligible(last: Option<int>, now: int): (r: bool)
    ensures last.None? ==> r
    ensures r && last.Some? ==> now > last.value
  {
    last.None? || DaysBetween(last.value, now) >= 1
  }

  /** The bonus window is a rolling 24 hours, and a clock that went backwards keeps it closed. */
  lemma BonusEligibleIffDayElapsed(last: Option<int>, now: int)
    ensures BonusEligible(last, now) <==> last.None? || now >= last.value + SecondsPerDay
  {
    if last.Some? {
      var d := now - last.value;
      if d >= SecondsPerDay {
        assert d / SecondsPerDay >= 1;
      } else if d >= 0 {
        assert d / SecondsPerDay == 0;
      } else {
        assert d / SecondsPerDay < 0;
      }
    }
  }

  // ---------------------------------------------------------------- referral

  predicate StartsWith(s: string, prefix: string) {
    |prefix| <= |s| && s[..|prefix|] == prefix
  }

  /**
   * The referrer named by a first message: for text starting with `/start`,
   * the second whitespace-separated word read as an integer; `None` when
   * there is no text, no second word, or the word is not an integer.
   */
  function ReferralArgument(text: Option<string>): (r: Option<int>)
    ensures r.Some? ==> text.Some? && StartsWith(text.value, "/start")
    ensures r.Some? ==> |Split(text.value)| > 1 && ParseInt(Split(text.value)[1]) == r
  {
    if text.Some? && StartsWith(text.value, "/start") then
      var parts := Split(text.value);
      if |parts| > 1 then ParseInt(parts[1]) else None
    else
      None
  }

  /** `referrer_id and referrer_id != user_id`: a truthy (non-zero) id other than the newcomer's. */
  predicate ReferralCandidate(referrer: Option<int>, newcomer: int): (r: bool)
    ensures r ==> referrer != Some(newcomer) && referrer != Some(0) && referrer != None
  {
    referrer.Some? && referrer.value != 0 && referrer.value != newcomer
  }

  /** The `/start <id>` message a newcomer sends to name the account that invited them. */
  function StartCommand(inviter: int): string {
    "/start " + ShowInt(inviter)
  }

  /** A `/start <id>` message names the inviter. */
  lemma StartCommandRoundTrip(inviter: int)
    ensures ReferralArgument(Some(StartCommand(inviter))) == Some(inviter)
  {
    ShowIntIsWord(inviter);
    ParseShowInt(inviter);
    ReferralArgumentOfWord(ShowInt(inviter), inviter);
  }

  /** `/start` followed by one integer word names that integer. */
  lemma ReferralArgumentOfWord(n: string, inviter: int)
    requires IsWord(n) && ParseInt(n) == Some(inviter)
    ensures ReferralArgument(Some("/start " + n)) == Some(inviter)
  {
    var text := "/start " + n;
    assert IsWord("/start");
    assert text == Unwords(["/start", n]);
    SplitUnwords(["/start", n]);
    assert StartsWith(text, "/start");
  }

  /** Sending `/start` with one's own id never makes a referral candidate. */
  lemma SelfReferralNeverCandidate(id: int)
    ensures !ReferralCandidate(ReferralArgument(Some(StartCommand(id))), id)
  {
    StartCommandRoundTrip(id);
  }

  // ---------------------------------------------------------------- promo codes

  /** `message.text.strip().upper()`: the code a user typed, as it is looked up. */
  function NormalizeCode(text: string): (r: string)
    ensures forall i | 0 <= i < |r| :: !IsLower(r[i])
    ensures r != [] ==> !IsSpace(r[0]) && !IsSpace(r[|r| - 1])
  {
    UpperMeaning(Strip(text));
    Upper(Strip(text))
  }

  lemma NormalizeCodeIdempotent(text: string)
    ensures NormalizeCode(NormalizeCode(text)) == NormalizeCode(text)
  {
    StripUpperCommute(Strip(text));
    StripIdempotent(text);
    UpperIdempotent(Strip(text));
  }

  /** Typing a code in any letter case finds the same code. */
  lemma NormalizeCodeIgnoresCase(text: string)
    ensures NormalizeCode(Upper(text)) == NormalizeCode(text)
  {
    StripUpperCommute(text);
    UpperIdempotent(Strip(text));
  }

  lemma {:induction false} TrimEndPadded(w: string, pad: string)
    requires AllSpace(pad) && IsWord(w)
    ensures TrimEnd(w + pad) == w
    decreases |pad|
  {
    if pad == [] {
      assert w + pad == w;
    } else {
      var p := pad[..|pad| - 1];
      assert (w + pad)[..|w + pad| - 1] == w + p;
      TrimEndPadded(w, p);
    }
  }

  /** A word surrounded by any whitespace normalises to its upper-case form: the form promo creation stores. */
  lemma NormalizePaddedWord(pad1: string, w: string, pad2: string)
    requires AllSpace(pad1) && IsWord(w) && AllSpace(pad2)
    ensures NormalizeCode(pad1 + w + pad2) == Upper(w)
  {
    TrimStartPaddedWord(pad1, w, pad2);
    TrimEndPadded(w, pad2);
    assert Strip(pad1 + w + pad2) == w;
  }

  lemma {:induction false} TrimStartPaddedWord(pad1: string, w: string, pad2: string)
    requires AllSpace(pad1) && IsWord(w)
    ensures TrimStart(pad1 + w + pad2) == w + pad2
    decreases |pad1|
  {
    if pad1 == [] {
      assert pad1 + w + pad2 == w + pad2;
      assert (w + pad2)[0] == w[0];
    } else {
      assert (pad1 + w + pad2)[1..] == pad1[1..] + w + pad2;
      TrimStartPaddedWord(pad1[1..], w, pad2);
    }
  }

  /** The admin's promo-creation line, once parsed and validated. */
  datatype PromoSpec = PromoSpec(code: string, reward: real, uses: int)

  /**
   * `CODE AMOUNT USES`: exactly three words, the code upper-cased, a positive
   * amount and a positive number of uses; `None` is the handler's ValueError.
   */
  function ParsePromoSpec(text: string): (r: Option<PromoSpec>)
    ensures r.Some? ==> IsWord(r.value.code) && Upper(r.value.code) == r.value.code
    ensures r.Some? ==> r.value.reward > 0.0 && r.value.uses > 0
  {
    var parts := Split(Strip(text));
    if |parts| != 3 then None
    else
      var code := Upper(parts[0]);
      match (ParseDecimal(parts[1]), ParseInt(parts[2]))
      case (Some(amount), Some(uses)) =>
        if amount <= 0.0 || uses <= 0 then None
        else
          UpperMeaning(parts[0]);
          UpperIdempotent(parts[0]);
          Some(PromoSpec(code, amount, uses))
      case _ => None
  }

  /**
   * A creation line is accepted exactly when it strips to three words whose
   * second reads as a positive amount and whose third as a positive count,
   * and then the code, reward and uses are the readings of those words.
   */
  lemma PromoSpecExactly(text: string)
    ensures var p := Split(Strip(text));
      ParsePromoSpec(text).Some? <==>
        |p| == 3 && ParseDecimal(p[1]).Some? && ParseInt(p[2]).Some?
        && ParseDecimal(p[1]).value > 0.0 && ParseInt(p[2]).value > 0
    ensures var p := Split(Strip(text));
      ParsePromoSpec(text).Some? ==>
        ParsePromoSpec(text).value == PromoSpec(Upper(p[0]), ParseDecimal(p[1]).value, ParseInt(p[2]).value)
  {
  }

  /** The three words of a promo-creation line joined by single spaces split back into those words. */
  lemma PromoLineWords(code: string, a: string, u: string)
    requires IsWord(code) && IsWord(a) && IsWord(u)
    ensures Split(Strip(code + " " + a + " " + u)) == [code, a, u]
  {
    var line := code + " " + a + " " + u;
    assert [code, a, u][1..] == [a, u];
    assert [a, u][1..] == [u];
    assert Unwords([a, u]) == a + " " + u;
    assert line == Unwords([code, a, u]);
    assert line[0] == code[0];
    assert line[|line| - 1] == u[|u| - 1];
    StripTrimmed(line);
    SplitUnwords([code, a, u]);
  }

  /** The line an admin types for a code, a whole-star reward and a number of uses is read back as exactly those. */
  lemma PromoSpecRoundTrip(code: string, reward: int, uses: int)
    requires IsWord(code) && reward > 0 && uses > 0
    ensures ParsePromoSpec(code + " " + ShowInt(reward) + " " + ShowInt(uses))
         == Some(PromoSpec(Upper(code), reward as real, uses))
  {
    var a, u := ShowInt(reward), ShowInt(uses);
    ShowIntIsWord(reward);
    ShowIntIsWord(uses);
    ParseShowInt(reward);
    ParseShowInt(uses);
    ParseDecimalOfInt(a, reward);
    PromoLineRead(code, a, u, reward as real, uses);
  }

  /** A line of three words whose second reads as a positive amount and whose third as a positive count is accepted. */
  lemma PromoLineRead(code: string, a: string, u: string, reward: real, uses: int)
    requires IsWord(code) && IsWord(a) && IsWord(u)
    requires ParseDecimal(a) == Some(reward) && ParseInt(u) == Some(uses) && reward > 0.0 && uses > 0
    ensures ParsePromoSpec(code + " " + a + " " + u) == Some(PromoSpec(Upper(code), reward, uses))
  {
    PromoLineWords(code, a, u);
  }

  // ---------------------------------------------------------------- amounts

  /** `float(message.text.strip())` refused when `amount <= 0`: the admin's grant and revoke amount. */
  function ParseAmount(text: string): (r: Option<real>)
    ensures r.Some? ==> r.value > 0.0
    ensures r.Some? ==> ParseDecimal(Strip(text)) == r
    ensures r.None? ==> forall a | ParseDecimal(Strip(text)) == Some(a) :: a <= 0.0
  {
    match ParseDecimal(Strip(text))
    case Some(a) => if a <= 0.0 then None else Some(a)
    case None => None
  }

  /** Any positive whole number typed by an admin, with surrounding whitespace, is accepted as that amount. */
  lemma ParseAmountOfWhole(pad1: string, n: int, pad2: string)
    requires AllSpace(pad1) && AllSpace(pad2) && n > 0
    ensures ParseAmount(pad1 + ShowInt(n) + pad2) == Some(n as real)
  {
    var w := ShowInt(n);
    ShowIntIsWord(n);
    TrimStartPaddedWord(pad1, w, pad2);
    TrimEndPadded(w, pad2);
    assert Strip(pad1 + w + pad2) == w;
    ParseShowInt(n);
    ParseAmountOfNumeral(pad1 + w + pad2, w, n);
  }

  /** A text that strips to an integer numeral reads as that integer when it is positive. */
  lemma ParseAmountOfNumeral(text: string, w: string, n: int)
    requires Strip(text) == w && ParseInt(w) == Some(n) && n > 0
    ensures ParseAmount(text) == Some(n as real)
  {
    ParseDecimalOfInt(w, n);
  }

  /** The callback data of a withdrawal button, `withdraw_<amount>`. */
  function WithdrawButton(amount: int): string {
    "withdraw_" + ShowInt(amount)
  }

  /** `float(callback.data.split("_")[1])`; `None` stands for ValueError or IndexError. */
  function WithdrawAmount(data: string): (r: Option<real>)
    ensures r.Some? ==> |SplitOn(data, '_')| >= 2
  {
    var parts := SplitOn(data, '_');
    if |parts| < 2 then None else ParseDecimal(Strip(parts[1]))
  }

  /** Every withdrawal button carries back the amount it shows. */
  lemma WithdrawButtonRoundTrip(amount: int)
    ensures WithdrawAmount(WithdrawButton(amount)) == Some(amount as real)
  {
    var n := ShowInt(amount);
    ShowIntIsWord(amount);
    ParseShowInt(amount);
    ParseDecimalOfInt(n, amount);
    WithdrawAmountOfField(n, amount as real);
  }

  /** `withdraw_` followed by a numeral without underscores carries back the numeral's value. */
  lemma WithdrawAmountOfField(n: string, amount: real)
    requires IsWord(n) && '_' !in n && ParseDecimal(n) == Some(amount)
    ensures WithdrawAmount("withdraw_" + n) == Some(amount)
  {
    assert "withdraw_" + n == JoinOn(["withdraw", n], '_');
    SplitOnJoin(["withdraw", n], '_');
    StripTrimmed(n);
  }

  // ---------------------------------------------------------------- ban targets

  /** `int(message.text.strip())`: the id an admin types to ban or unban. */
  function BanTarget(text: string): (r: Option<int>)
    ensures r.Some? ==> Strip(text) != []
    ensures r.Some? && Strip(text)[0] != '-' ==> r.value >= 0
  {
    ParseInt(Strip(text))
  }

  /** Typing an account's id, as the profile card shows it, names that account. */
  lemma BanTargetRoundTrip(id: int)
    ensures BanTarget(ShowInt(id)) == Some(id)
  {
    ShowIntIsWord(id);
    ParseShowInt(id);
    BanTargetOfWord(ShowInt(id), id);
  }

  lemma BanTargetOfWord(w: string, id: int)
    requires IsWord(w) && ParseInt(w) == Some(id)
    ensures BanTarget(w) == Some(id)
  {
    StripTrimmed(w);
  }

  /** The callback data of the profile card's ban and unban buttons, `user_ban_<id>` and `user_unban_<id>`. */
  function DirectButton(verb: string, id: int): string {
    "user_" + verb + "_" + ShowInt(id)
  }

  /** `int(callback.data.split("_")[2])`; `None` stands for ValueError or IndexError. */
  function DirectTarget(data: string): (r: Option<int>)
    ensures r.Some? ==> |SplitOn(data, '_')| >= 3
  {
    var parts := SplitOn(data, '_');
    if |parts| < 3 then None else ParseInt(Strip(parts[2]))
  }

  /** The ban and unban buttons carry back the id of the account the card shows. */
  lemma DirectButtonRoundTrip(verb: string, id: int)
    requires '_' !in verb
    ensures DirectTarget(DirectButton(verb, id)) == Some(id)
  {
    ShowIntIsWord(id);
    ParseShowInt(id);
    DirectTargetOfFields(verb, ShowInt(id), id);
  }

  /** `user_<verb>_<n>` carries back the id `n` reads as. */
  lemma DirectTargetOfFields(verb: string, n: string, id: int)
    requires '_' !in verb && IsWord(n) && '_' !in n && ParseInt(n) == Some(id)
    ensures DirectTarget("user_" + verb + "_" + n) == Some(id)
  {
    assert ["user", verb, n][1..] == [verb, n];
    assert [verb, n][1..] == [n];
    assert JoinOn([verb, n], '_') == verb + "_" + n;
    assert "user_" + verb + "_" + n == JoinOn(["user", verb, n], '_');
    SplitOnJoin(["user", verb, n], '_');
    StripTrimmed(n);
  }
}
