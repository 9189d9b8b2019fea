# Star ledger of the stars bot

The bot keeps a virtual currency, *stars*, for each Telegram account that
writes to it. Accounts earn stars in three ways:

- by inviting others: a newcomer's first message `/start <id>` names the inviter, who gets 8.5 stars;
- by claiming a daily bonus (0.5 stars, at most once every 24 hours);
- by redeeming promo codes.

Accounts spend stars by requesting a withdrawal of 25, 50, 100 or 300 stars.
Administrators can grant, revoke and reset balances, create promo codes, and
ban or unban accounts. Every balance movement except a withdrawal (finding 2
below) is logged as a row of the `transactions` table, and an account's history is the newest rows it received.

This project models that ledger. It has three tables:

- `users`: balance, referrer, last bonus claim, ban flag;
- `promocodes`: reward, remaining uses, active flag;
- the append-only `transactions` log.

It also models the store helpers the handlers call, the handlers that move
stars or change an account, and the parsing of the chat inputs those handlers
read. Its modules:

- `Text`: Python's `strip`, `split`, `upper`, `int()` and `float()` on the inputs the bot reads.
- `Rules`: the constants, the bonus window, the referral argument, promo-code normalisation and the admin's input lines.
- `Ledger`: transaction rows, how each row moves its account's balance, and the history query.
- `Db`: the store as a class `Database` with the tables as `map`/`seq` fields. It also holds the invariants every handler keeps:
  - balances are never negative;
  - every balance equals the kind-signed sum of its ledger rows;
  - promo codes are sound.
- `Handlers`: the middleware and the handlers, as methods on the store. Each states its whole effect on the three tables.
- `Findings`: two defects of the code as written, modelled as written next to their corrections.
- `Scenarios`: end-to-end runs on a fresh store: a referral, a single-use code, the bonus window, a grant and a revocation, two withdrawals, a ban and its lifting, and a reset.

Debits are logged the way the code logs them: withdrawals, revocations and
resets all store a *positive* amount. So the ledger reconciles with the
balances only when each row is signed by its kind (`Ledger.Signed`). The
plain sum of the amounts an account received does not reconcile;
`Scenarios.DebitsLoggedPositive` shows this (main.py:569-578, 921-946).
Each store call commits in its own session (main.py:189-214), so a handler
that moves a balance and then logs a row does so in two separate commits.

The model follows the code except in the two places listed under
"## Findings":

- `Handlers.ProcessWithdraw` and `Handlers.DebitWithdrawal` log the
  `withdraw` row, which the code as written fails to insert. They are the
  corrected members of finding 2. Their store half is
  `Db.Database.CreateTransaction`, which accepts a row with no receiver
  although the declared NOT NULL `receiver_id` column (main.py:72) refuses
  it; `Findings.CreateTransactionNotNull` models that column as declared.
- `Handlers.ProcessAddStars` and `Handlers.ProcessRemoveStars` read the
  amount through `Rules.ParseAmount`, which refuses `nan` and `inf`. They
  are the corrected members of finding 1.

The reconciliation invariant holds because of these corrections. The code as
written is modelled beside them in `Findings`.

## Model

| member | source | states |
|---|---|---|
| Text.Strip | main.py:498 | the stripped text neither starts nor ends with whitespace |
| Text.StripIsTrimmedSlice | main.py:825 | `strip()` keeps one contiguous slice of its input and removes only whitespace, on both sides |
| Text.StripTrimmed | main.py:1157 | a text with no whitespace at either end is its own strip |
| Text.StripIdempotent | main.py:498 | stripping twice is stripping once |
| Text.Split | main.py:336 | `split()` yields only whitespace-free, non-empty words; Text.SplitUnwords states that it takes apart words joined by spaces |
| Text.SplitFrom | main.py:336 | `split()` yields only non-empty words without whitespace |
| Text.SplitUnwords | main.py:1157 | splitting words joined by single spaces gives back exactly those words |
| Text.SplitOn | main.py:562 | `split("_")` yields at least one field and no field contains the separator; Text.JoinSplitOn and Text.SplitOnJoin state the round trips |
| Text.SplitOnFrom | main.py:562 | `split("_")` yields at least one field, and no field contains the separator |
| Text.JoinSplitOn | main.py:562 | joining the fields of `split(sep)` with `sep` rebuilds the text |
| Text.SplitOnJoin | main.py:1271 | splitting fields joined by a separator they do not contain gives back the fields |
| Text.Upper | main.py:498 | `upper()` keeps the length and maps every character through the one-character upper-casing |
| Text.UpperMeaning | main.py:498 | the upper-cased text has no lower-case letter, changes nothing else, and keeps whitespace where it was |
| Text.UpperIdempotent | main.py:498 | upper-casing twice is upper-casing once |
| Text.StripUpperCommute | main.py:498 | stripping and upper-casing commute |
| Text.UpperPrefix | main.py:498 | upper-casing a prefix gives the prefix of the upper-cased text |
| Text.ParseInt | main.py:339 | `int()` accepts only an optional sign followed by digits, and the sign decides whether the value is negative; Text.ParseShowInt states that it reads back every rendered integer |
| Text.ParseShowInt | main.py:338-339 | `int()` reads the decimal rendering of any integer back as that integer |
| Text.ShowIntIsWord | main.py:426 | a rendered integer is one whitespace-free word with no underscore |
| Text.ParseDecimal | main.py:1162 | `float()` on a numeral accepts only a non-empty text whose sign decides the sign of the value; Text.ParseDecimalOfInt states that it agrees with `int()` |
| Text.ParseDecimalOfInt | main.py:1162-1163 | every text `int()` accepts is accepted by `float()` with the same value |
| Text.DotIndex | main.py:562 | the decimal point found is the first `.` of the text, or there is none |
| Rules.IsAdmin | main.py:656-658 | a caller is an admin exactly when its id occurs in the configured admin list |
| Rules.SeqMin | main.py:544 | `min()` of a non-empty list is an element of it and no larger than any element |
| Rules.MinWithdrawal | main.py:544 | the menu threshold is one of the offered amounts and no larger than any of them |
| Rules.MinWithdrawalIs25 | main.py:39 | the smallest withdrawal offered is 25 stars |
| Rules.BonusEligible | main.py:443 | no earlier claim always allows a bonus, and an allowed claim is later than the last one; Rules.BonusEligibleIffDayElapsed states the exact window |
| Rules.BonusEligibleIffDayElapsed | main.py:443 | a bonus may be claimed exactly when there was no claim before or at least 86400 seconds have passed since the last one |
| Rules.ReferralArgument | main.py:334-341 | a referral id is read only from a text that starts with `/start` and has a second word, and it is the integer that word reads as; Rules.ReferralArgumentOfWord states the converse |
| Rules.ReferralCandidate | main.py:350 | a candidate referrer is a non-zero id other than the newcomer's; Rules.SelfReferralNeverCandidate applies it to one's own `/start` message |
| Rules.StartCommandRoundTrip | main.py:334-341 | a newcomer's message `/start <id>` names the inviter |
| Rules.ReferralArgumentOfWord | main.py:334-341 | `/start` followed by one integer word names that integer |
| Rules.SelfReferralNeverCandidate | main.py:350 | sending `/start` with one's own id never makes a referral that could be credited |
| Rules.NormalizeCode | main.py:498 | the looked-up code has no lower-case letter and neither starts nor ends with whitespace; Rules.NormalizeCodeIdempotent and Rules.NormalizePaddedWord relate it to the stored form |
| Rules.NormalizeCodeIdempotent | main.py:498 | normalising a typed code twice is normalising it once |
| Rules.NormalizeCodeIgnoresCase | main.py:498 | typing a code in any letter case looks up the same code |
| Rules.NormalizePaddedWord | main.py:498 | a code word surrounded by any whitespace is looked up in its upper-case form, the form promo creation stores |
| Rules.ParsePromoSpec | main.py:1157-1166 | an accepted creation line yields an upper-case one-word code, a positive reward and a positive number of uses; Rules.PromoSpecExactly states which lines are accepted and what they yield |
| Rules.PromoSpecExactly | main.py:1157-1166 | a creation line is accepted exactly when it strips to three words whose second reads as a positive amount and whose third as a positive count, and the accepted code, reward and uses are the upper-cased first word and the readings of the other two |
| Rules.PromoSpecRoundTrip | main.py:1157-1166 | the line `CODE AMOUNT USES` for whole amounts is read back as exactly that code (upper-cased), reward and uses |
| Rules.PromoLineRead | main.py:1157-1166 | any three words whose second reads as a positive amount and whose third as a positive count are accepted as such |
| Rules.ParseAmount | main.py:824-829 | an accepted admin amount is positive and is the value `float()` reads from the stripped text; a refusal means the text is no numeral or a non-positive one |
| Rules.ParseAmountOfWhole | main.py:824-829 | any positive whole number, with any surrounding whitespace, is accepted as that amount |
| Rules.ParseAmountOfNumeral | main.py:824-829 | a text that strips to a positive integer numeral is accepted as that integer |
| Rules.WithdrawAmount | main.py:562 | an amount is read only from data with a second `_`-separated field; Rules.WithdrawButtonRoundTrip states that every button's amount comes back |
| Rules.WithdrawButtonRoundTrip | main.py:132-137 | every withdrawal button carries back the amount it shows |
| Rules.WithdrawAmountOfField | main.py:562 | `withdraw_<n>` carries back the value of `n` whenever `n` is a numeral without underscores |
| Rules.BanTarget | main.py:1229 | an id is read only from a non-blank text, and it is non-negative unless typed with a minus sign; Rules.BanTargetRoundTrip states that a displayed id comes back |
| Rules.BanTargetRoundTrip | main.py:1229 | typing an account's id as it is displayed names that account |
| Rules.BanTargetOfWord | main.py:1229 | any integer word names the integer it reads as |
| Rules.DirectTarget | main.py:1271 | an id is read only from data with a third `_`-separated field; Rules.DirectButtonRoundTrip states that the card's buttons carry back the account shown |
| Rules.DirectButtonRoundTrip | main.py:1330 | the profile card's ban and unban buttons carry back the id of the account shown |
| Rules.DirectTargetOfFields | main.py:1271 | `user_<verb>_<n>` names the id `n` reads as |
| Ledger.KindNamesDistinct | main.py:74 | distinct kinds are stored under distinct `type` strings, so the column determines the kind |
| Ledger.NetAppend | main.py:199-214 | appending a row changes only its holder's net by the row's kind-signed amount |
| Ledger.Recent | main.py:289-295 | the history holds at most `limit` rows, each a ledger row received by the account |
| Ledger.RecentIsNewestReceived | main.py:289-295 | the history is the newest `limit` rows received by the account, newest first |
| Ledger.RecentNewestFirst | main.py:295 | in a numbered ledger the history is in strictly decreasing id order |
| Db.PostingReconciles | main.py:189-214 | moving a balance by a row's signed amount while appending that row keeps every balance equal to its signed ledger sum |
| Db.CreditKeepsSolvent | main.py:189-197 | a balance change that leaves its account non-negative leaves all balances non-negative |
| Db.PostingKeepsInvariants | main.py:189-214 | a posting that leaves its account non-negative keeps both balance invariants |
| Db.BalancesOnlyReconcile | main.py:460 | changing columns other than balances never breaks reconciliation |
| Db.FlagKeepsBalances | main.py:297-317 | setting a ban flag keeps both balance invariants |
| Db.JoiningReconciles | main.py:180-187 | a newcomer's zero balance matches the ledger's net for an id that had no account |
| Db.RedeemableIffUsesLeft | main.py:233-241 | for a sound code, being found by the lookup is exactly having uses left |
| Db.RedeemedSound | main.py:243-254 | spending one use of a sound code with uses left keeps it sound: active exactly while uses remain |
| Db.RedeemedTimesState | main.py:243-254 | after `k` uses a code has `k` fewer uses left and is active exactly while some remain |
| Db.RedeemableExactlyUsesTimes | main.py:243-254 | a code with `n` uses is found by the lookup for exactly its first `n` redemptions |
| Db.GetPromocodeFindsUsable | main.py:233-241 | in a valid store the lookup finds a code exactly when it exists with uses left |
| Db.Database.constructor | main.py:51-89 | a fresh store has no accounts, codes or rows, and satisfies every invariant |
| Db.Database.GetUser | main.py:174-178 | the lookup returns the account's row exactly when the account exists |
| Db.Database.CreateUser | main.py:180-187 | a new id gets the row with balance 0, no bonus claim and no ban; an existing id is refused and nothing changes |
| Db.Database.UpdateBalance | main.py:189-197 | only the named account's balance moves, by exactly the amount; an unknown id changes nothing |
| Db.Database.CreateTransaction | main.py:199-214 | exactly one row is appended under the next id, and the ledger stays numbered; a row with no receiver is appended too, although the declared NOT NULL `receiver_id` column (main.py:72) refuses it, so this is the store half of finding 2's correction (Findings.CreateTransactionNotNull models the column as declared) |
| Db.Database.GetPromocode | main.py:233-241 | the lookup returns a code's row exactly when it is active with uses left |
| Db.Database.UsePromocode | main.py:243-254 | succeeds exactly when the code has uses left, whatever its active flag; spends one use and deactivates at 0; keeps codes sound; otherwise nothing changes |
| Db.Database.CreatePromocode | main.py:256-263 | a new code is stored active with the given reward and uses; an existing code is refused and nothing changes |
| Db.Database.BanUser | main.py:297-306 | succeeds exactly for a registered account and sets only its ban flag |
| Db.Database.UnbanUser | main.py:308-317 | succeeds exactly for a registered account and clears only its ban flag |
| Db.Database.GetUserTransactions | main.py:289-295 | the newest `limit` rows received by the account, newest first by id |
| Handlers.CheckUser | main.py:327-368 | an unknown sender is registered with the referrer its `/start` names; only a non-zero, non-self, existing referrer is credited 8.5 stars with one `referral` row; a banned known sender is turned away; invariants kept |
| Handlers.CallbackAdmitted | main.py:370-380 | a button press passes exactly when its sender has no account or is not banned |
| Handlers.ClaimDailyBonus | main.py:438-484 | within a day of the last claim nothing changes and the reopening time is returned; otherwise +0.5 stars, the claim time set, one `bonus` row |
| Handlers.ProcessPromocode | main.py:495-539 | a typed code that, stripped and upper-cased, exists with uses left spends one use, credits exactly its reward and logs one `promo` row; otherwise `NotFound` and nothing changes |
| Handlers.Redeem | main.py:499-522 | the same outcome, for the code once normalised |
| Handlers.WithdrawMenu | main.py:541-557 | the menu opens exactly when the balance is at least 25 stars |
| Handlers.ProcessWithdraw | main.py:559-578 | unreadable button data, an unknown account or an uncovered amount change nothing; otherwise the balance drops by exactly the amount read from the data and one `withdraw` row of that amount, sent by the account, is logged; corrected member of finding 2: the row the code fails to insert is logged |
| Handlers.DebitWithdrawal | main.py:564-578 | the store part of a withdrawal: refusal changes nothing, success debits exactly the amount and logs one row; invariants kept; corrected member of finding 2 |
| Handlers.ProcessAddStars | main.py:818-866 | non-admins, non-positive or unreadable amounts and unknown accounts change nothing; otherwise exactly the amount is credited with one `admin_add` row; corrected member of finding 1: `nan` and `inf` are refused as amounts |
| Handlers.ProcessRemoveStars | main.py:905-960 | as a grant, and an amount above the balance is refused too; otherwise exactly the amount is debited with one positive `admin_remove` row, so no balance goes negative; corrected member of finding 1: `nan` and `inf` are refused as amounts |
| Handlers.RevokeStars | main.py:921-946 | the store part of a revocation: refusal changes nothing, success debits exactly the amount and logs one row |
| Handlers.AdminResetBalance | main.py:977-1011 | an unknown account or a zero balance changes nothing; otherwise the balance becomes 0 and one `admin_reset` row records the old balance |
| Handlers.ProcessCreatePromocode | main.py:1150-1204 | a valid `CODE AMOUNT USES` line with an unused code adds exactly that active code and leaves all other codes; anything else changes nothing |
| Handlers.ProcessBanUser | main.py:1222-1262 | a typed id of a registered account flips its ban flag and only that; balances and ledger untouched |
| Handlers.SetBanDirect | main.py:1264-1336 | a profile-card button sets the named account's ban flag; an unknown id or unreadable data changes nothing |
| Findings.PyFloat | main.py:825 | Python's `float()`: a finite result is exactly the value of the stripped decimal numeral, a non-finite result comes only from a spelling of `nan`, `inf` or `infinity`, and a refused text is no numeral |
| Findings.ParseAmountAsWritten | main.py:824-829 | the amount as written is accepted exactly when `float()` reads it and the result is not `<= 0` in Python's sense, and it is then that float |
| Findings.NanWordAccepted | main.py:824-829 | any spelling of `nan`, in any case and padding, passes the `amount <= 0` guard |
| Findings.InfWordAccepted | main.py:824-829 | any unsigned spelling of `inf`/`infinity` passes the guard as positive infinity |
| Findings.NanAmountAccepted | main.py:824-829 | the admin typing `nan` gets an accepted amount |
| Findings.InfAmountAccepted | main.py:911-916 | the admin typing `inf` gets an accepted amount |
| Findings.NanIncomparable | main.py:826 | NaN is not `<= 0`, and it is neither below nor above any value: every Python comparison with NaN is false |
| Findings.ParseDecimalStart | main.py:825 | every text read as a numeral starts, after its sign, with a digit or a dot |
| Findings.CorrectedAmountRefusesWord | main.py:824-829 | the corrected reading refuses any text that does not start like a numeral |
| Findings.CorrectedAmountRefusesNonFinite | main.py:824-829 | the corrected reading refuses `nan` and `inf` |
| Findings.AmountReadingsAgreeOnNumerals | main.py:824-829 | on every numeral the as-written and corrected readings agree |
| Findings.CreateTransactionNotNull | main.py:67-76 | a row without a receiver is refused by the NOT NULL column and the ledger is unchanged; any other row is appended |
| Findings.ProcessWithdrawAsWritten | main.py:559-578 | as written, an accepted withdrawal debits the balance and then fails to log its row |
| Findings.DebitWithoutRowUnreconciles | main.py:569-578 | a debit with no row breaks reconciliation |
| Findings.WithdrawalAsWrittenExample | main.py:569-578 | a 50-star account pressing the 25-star button ends at 25 stars with no row accounting for it |
| Scenarios.ReferralJoin | main.py:327-360 | account 100's first message `/start 1` credits 1 with 8.5 stars and logs one `referral` row; repeating it or sending one's own id pays nothing |
| Scenarios.TypedWhole | main.py:825 | a whole number typed by an admin is read as that amount |
| Scenarios.GrantStep | main.py:818-846 | an admin grant of `n` stars to a fresh account leaves it at `n` with one `admin_add` row |
| Scenarios.FirstRedemption | main.py:495-522 | the first redemption of a single-use code credits its reward and deactivates the code |
| Scenarios.SingleUseCode | main.py:495-522 | a single-use code typed in any case pays once; the next account's redemption gets `NotFound` |
| Scenarios.BonusOncePerDay | main.py:438-470 | a second claim within a day is refused until exactly 86400 seconds later, and the balance grows by the bonus twice |
| Scenarios.RevokeStep | main.py:905-946 | revoking part of a grant leaves the difference and a second, positive row |
| Scenarios.DebitsLoggedPositive | main.py:905-946 | after a grant and a revocation the balance is their difference but the received amounts add up to their sum, newest first in the history |
| Scenarios.TwoReceivedHistory | main.py:289-295 | two received rows sum their amounts and are listed newest first |
| Scenarios.ReceivedThenWithdrawn | main.py:289-295 | a withdrawal row, having no receiver, is not in the account's history |
| Scenarios.WithdrawStep | main.py:559-578 | pressing the 25-star button on a covered balance debits 25 and logs row 2 |
| Scenarios.RefusedStep | main.py:564-566 | pressing it again on less than 25 stars is refused with the balance shown, and nothing changes |
| Scenarios.WithdrawnAccount | main.py:541-578 | an account with at least 25 stars sees the menu and withdraws 25 |
| Scenarios.WithdrawTwice | main.py:541-578 | an account with 25 to 49 stars withdraws once, is refused the second time, no longer sees the menu, and its history holds only the grant |
| Scenarios.BanStep | main.py:1222-1251 | typing an account's id flips its ban flag |
| Scenarios.BanAndUnban | main.py:1222-1251 | a banned account's messages and presses are turned away; typing the id again lets them through |
| Scenarios.ResetTwice | main.py:977-1011 | a reset logs the old balance as an `admin_reset` row and leaves 0; a second reset is refused |

## Left out

- Keyboards, FSM states, menus and the HTML reply texts: the model returns each handler's outcome (`Ok`/`Err`) instead of the message.
- Notifications to the referrer, the affected user and the admins, and the broadcast loop: network I/O whose failures are caught and never change the tables.
- Database sessions and commits: each store operation is one method call. Handlers run one at a time, so races between sessions are not modelled. In particular, the "already used" reply of `process_promocode` is never reached, because the lookup has just seen a use left.
- Handlers.Redeem: the second `use_promocode` failure branch is not modelled as an outcome, because it is only reachable through concurrent redemptions.
- Floating point: balances and amounts are exact reals, so the model has no rounding. `nan` and `inf` are modelled only in the findings.
- What happens to a `nan` amount after it is accepted is not modelled: the store turning a NaN balance into NULL, the NOT NULL `amount` column refusing the row, and the later balance comparison failing on NULL.
- Handlers.CheckUser: the referrer id is an unbounded integer. The `users` id columns are 64-bit (main.py:55, 58), so a `/start` argument outside the signed 64-bit range makes the store refuse `create_user` and register nothing, where the model registers the sender.
- Handlers.ProcessCreatePromocode: the number of uses is an unbounded integer. `uses_left` is a 64-bit column (main.py:88), so a uses field outside the signed 64-bit range creates no code in the source, where the model stores one.
- Handlers.ProcessBanUser: the typed id is an unbounded integer. An id outside the signed 64-bit range makes the store's lookup raise, where the model answers `NotFound`.
- Handlers.SetBanDirect: the same for an id outside the signed 64-bit range carried by the button data, which the profile card never produces.
- Text.ParseDecimal: Python's `float()` also accepts underscores between digits and exponents (`1e3`); only sign, digits and one decimal point are modelled. Likewise `int()` is modelled without underscores or non-ASCII digits.
- Text.Upper: only ASCII letters are upper-cased. Python's full Unicode case mapping is not modelled.
- The clock: `now` is a parameter in whole seconds. Registration and bonus times are integers.
- Ledger.Recent: the history is ordered by insertion (id). The source orders by timestamp, which agrees whenever the clock does not go backwards.
- `get_referrals_count`, `get_top_referrers`, `get_all_users`, `get_stats` and the global history view: aggregate read-only queries, outside the ledger rules.
- The `description` column of transactions: free text with no effect on balances.
- The admin list: a parameter (`admins`); reading it from the environment is configuration I/O.
- Messages without text: the handlers are modelled on text and callback data only.
- The referral link of the profile screen (main.py:426) is not modelled. It is built as `https://t.me/<the inviter's own username or your_bot>?start=<id>`, which opens the inviter's chat rather than the bot's, so only a `/start <id>` the newcomer types reaches the middleware. The model starts from that message (`Rules.StartCommand`).
- Handlers.ProcessWithdraw: callback data is taken as sent. A forged `withdraw_-5` passes the balance check and credits the account. The model states that outcome but does not claim that every debit is positive.
- Db.Database.CreatePromocode: on its own it does not require a positive reward and uses. Soundness of codes is established by `Handlers.ProcessCreatePromocode`, which validates the line first.
- Handlers.ClaimDailyBonus and Handlers.ProcessPromocode require the sender to be registered, because the middleware registers every sender before these handlers run.

## Findings

| source | as written | input that shows it | evidently intended | confidence | as-written member | corrected member |
|---|---|---|---|---|---|---|
| main.py:824-829 | `float(text.strip())` refused only when `amount <= 0`; promo creation reads its reward the same way (main.py:1162-1165), so `CODE inf 5` stores an infinite reward, which Rules.ParsePromoSpec refuses | the admin types `nan` (or `inf`) as the amount to grant or revoke | only finite positive amounts are accepted | not executed | Findings.NanAmountAccepted | Findings.CorrectedAmountRefusesNonFinite |
| main.py:569-578 | the balance is debited in its own commit, then the withdrawal row is inserted with `receiver_id=None` into a NOT NULL column (main.py:72) | an account with 50 stars presses the 25-star button | the debit and its `withdraw` row are both recorded, or neither | not executed | Findings.WithdrawalAsWrittenExample | Handlers.ProcessWithdraw |
