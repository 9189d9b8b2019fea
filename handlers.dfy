/**
 * The chat handlers that move stars or change an account, each as a method
 * on the store. Every handler keeps `Valid()`: balances stay non-negative
 * and equal to the kind-signed sum of their ledger rows, and promo codes
 * stay sound. Each one states its whole effect: which rows change, to what,
 * and which row is appended.
 *
 * A handler's reply text is not modelled; its outcome is: `Ok` carries the
 * receipt number (the new transaction id) or the value the reply shows, and
 * `Err` names the refusal the reply reports.
 */
module Handlers {
  import opened Wrappers
  import opened Text
  import opened Rules
  import opened Ledger
  import opened Db

  datatype Error =
    | Denied                       // the caller is not an admin
    | InvalidInput                 // the typed or carried text does not parse
    | NotFound                     // no such account or code
    | TooSoon(availableAt: int)    // the daily bonus was claimed less than a day ago
    | Insufficient(balance: real)  // the balance does not cover the amount
    | Duplicate                    // a promo code with this name exists
    | AlreadyZero                  // the balance to reset is already 0
    | StoreFailure                 // the store refused a write and the handler stopped

  datatype Result<T> = Ok(value: T) | Err(error: Error)

  // ---------------------------------------------------------------- middleware

  /**
   * `check_user_middleware`, run before every message: registers an unknown
   * sender (crediting the referrer named by `/start <id>` when that account
   * exists), then lets the message through unless the sender is banned.
   */
  method CheckUser(db: Database, from: int, username: Option<string>, text: Option<string>, now: int)
    returns (admitted: bool)
    requires db.Valid()
    modifies db
    ensures db.Valid()
    ensures db.promos == old(db.promos)
    ensures from in old(db.users) ==>
      && db.users == old(db.users) && db.ledger == old(db.ledger)
      && (admitted <==> !old(db.users)[from].banned)
    ensures from !in old(db.users) ==> admitted
    ensures from !in old(db.users) ==>
      var referrer := ReferralArgument(text);
      var joined := old(db.users)[from := NewUser(username, referrer, now)];
      if ReferralCandidate(referrer, from) && referrer.value in old(db.users) then
        && db.users == Adjusted(joined, referrer.value, ReferralReward)
        && db.ledger == old(db.ledger) + [Transaction(|old(db.ledger)| + 1, Some(from), referrer, ReferralReward, Referral, now)]
      else
        db.users == joined && db.ledger == old(db.ledger)
  {
    var user := db.GetUser(from);
    if user.None? {
      var referrer := ReferralArgument(text);
      var users0 := db.users;
      user := db.CreateUser(from, username, referrer, now);
      JoiningReconciles(users0, db.ledger, from, NewUser(username, referrer, now));
      if ReferralCandidate(referrer, from) && db.GetUser(referrer.value).Some? {
        var users1, ledger1 := db.users, db.ledger;
        var credited := db.UpdateBalance(referrer.value, ReferralReward);
        var t := db.CreateTransaction(Some(from), referrer, ReferralReward, Referral, now);
        PostingReconciles(users1, ledger1, t);
      }
    }
    admitted := !(user.Some? && user.value.banned);
  }

  /** `check_user_callback_middleware`: a button press goes through unless its sender is a banned account. */
  function CallbackAdmitted(db: Database, from: int): (admitted: bool)
    reads db
    ensures admitted <==> db.GetUser(from).None? || !db.GetUser(from).value.banned
  {
    !(from in db.users && db.users[from].banned)
  }

  // ---------------------------------------------------------------- user actions

  /**
   * `daily_bonus` for a registered sender: 0.5 stars and a `bonus` row when
   * the last claim is at least a day old (or there is none); otherwise the
   * time the next claim opens, and no change.
   */
  method ClaimDailyBonus(db: Database, uid: int, now: int) returns (r: Result<nat>)
    requires db.Valid() && uid in db.users
    modifies db
    ensures db.Valid()
    ensures db.promos == old(db.promos)
    ensures var u := old(db.users)[uid];
      if u.lastBonus.None? || now >= u.lastBonus.value + SecondsPerDay then
        && r == Ok(|old(db.ledger)| + 1)
        && db.users == old(db.users)[uid := u.(balance := u.balance + DailyBonus, lastBonus := Some(now))]
        && db.ledger == old(db.ledger) + [Transaction(|old(db.ledger)| + 1, None, Some(uid), DailyBonus, Bonus, now)]
      else
        && r == Err(TooSoon(u.lastBonus.value + SecondsPerDay))
        && db.users == old(db.users) && db.ledger == old(db.ledger)
  {
    var user := db.users[uid];
    BonusEligibleIffDayElapsed(user.lastBonus, now);
    if !BonusEligible(user.lastBonus, now) {
      return Err(TooSoon(user.lastBonus.value + SecondsPerDay));
    }
    var users0, ledger0 := db.users, db.ledger;
    db.users := db.users[uid := user.(balance := user.balance + DailyBonus, lastBonus := Some(now))];
    var t := db.CreateTransaction(None, Some(uid), DailyBonus, Bonus, now);
    PostingReconciles(users0, ledger0, t);
    BalancesOnlyReconcile(Adjusted(users0, uid, DailyBonus), db.users, db.ledger);
    r := Ok(t.id);
  }

  /**
   * `process_promocode`: the typed code, stripped and upper-cased, is
   * redeemed when it exists with uses left: one use is spent, its reward is
   * credited and a `promo` row is appended. Otherwise nothing changes.
   */
  method ProcessPromocode(db: Database, uid: int, text: string, now: int) returns (r: Result<nat>)
    requires db.Valid() && uid in db.users
    modifies db
    ensures db.Valid()
    ensures var code := NormalizeCode(text);
      if code in old(db.promos) && old(db.promos)[code].usesLeft > 0 then
        var p := old(db.promos)[code];
        && r == Ok(|old(db.ledger)| + 1)
        && db.promos == old(db.promos)[code := Redeemed(p)]
        && db.users == Adjusted(old(db.users), uid, p.reward)
        && db.ledger == old(db.ledger) + [Transaction(|old(db.ledger)| + 1, None, Some(uid), p.reward, Promo, now)]
      else
        && r == Err(NotFound)
        && db.promos == old(db.promos) && db.users == old(db.users) && db.ledger == old(db.ledger)
  {
    r := Redeem(db, uid, NormalizeCode(text), now);
  }

  /** The store part of `process_promocode`, once the code is normalised. */
  method Redeem(db: Database, uid: int, code: string, now: int) returns (r: Result<nat>)
    requires db.Valid() && uid in db.users
    modifies db
    ensures db.Valid()
    ensures if code in old(db.promos) && old(db.promos)[code].usesLeft > 0 then
        var p := old(db.promos)[code];
        && r == Ok(|old(db.ledger)| + 1)
        && db.promos == old(db.promos)[code := Redeemed(p)]
        && db.users == Adjusted(old(db.users), uid, p.reward)
        && db.ledger == old(db.ledger) + [Transaction(|old(db.ledger)| + 1, None, Some(uid), p.reward, Promo, now)]
      else
        && r == Err(NotFound)
        && db.promos == old(db.promos) && db.users == old(db.users) && db.ledger == old(db.ledger)
  {
    GetPromocodeFindsUsable(db, code);
    var promo := db.GetPromocode(code);
    if promo.None? {
      return Err(NotFound);
    }
    var reward := promo.value.reward;
    ghost var users0, promos0, ledger0 := db.users, db.promos, db.ledger;
    assert SoundPromo(promos0[code]);
    var used := db.UsePromocode(code);
    if !used {
      // The "already used" reply: the lookup just saw a use left, so with
      // handlers running one at a time this branch is never taken.
      assert false;
    }
    assert db.promos == promos0[code := Redeemed(promos0[code])];
    RedeemedSound(promos0[code]);
    assert PromosSound(db.promos) && db.users == users0 && db.ledger == ledger0;
    var credited := db.UpdateBalance(uid, reward);
    assert db.users == Adjusted(users0, uid, reward) && db.ledger == ledger0;
    CreditKeepsSolvent(users0, uid, reward);
    var t := db.CreateTransaction(None, Some(uid), reward, Promo, now);
    assert t.id == |ledger0| + 1 && Holder(t) == Some(uid) && Signed(t) == reward;
    PostingReconciles(users0, ledger0, t);
    r := Ok(t.id);
  }

  /** `withdraw_menu`: the amount buttons are offered only from the smallest option (25 stars) up. */
  function WithdrawMenu(user: User): (r: Result<real>)
    ensures r.Ok? <==> user.balance >= 25.0
    ensures r == Ok(user.balance) || r == Err(Insufficient(user.balance))
  {
    MinWithdrawalIs25();
    if user.balance < MinWithdrawal() as real then Err(Insufficient(user.balance)) else Ok(user.balance)
  }

  /**
   * `process_withdraw`: the amount carried by the button is debited from a
   * balance that covers it and logged as a `withdraw` row of that amount sent by
   * the account, with no receiver. The amount is parsed before the account
   * is looked up; an unknown account or an uncovered amount changes nothing.
   */
  method ProcessWithdraw(db: Database, uid: int, data: string, now: int) returns (r: Result<nat>)
    requires db.Valid()
    modifies db
    ensures db.Valid()
    ensures db.promos == old(db.promos)
    ensures match WithdrawAmount(data)
      case None =>
        r == Err(InvalidInput) && db.users == old(db.users) && db.ledger == old(db.ledger)
      case Some(amount) =>
        if uid !in old(db.users) then
          r == Err(NotFound) && db.users == old(db.users) && db.ledger == old(db.ledger)
        else if old(db.users)[uid].balance < amount then
          && r == Err(Insufficient(old(db.users)[uid].balance))
          && db.users == old(db.users) && db.ledger == old(db.ledger)
        else
          && r == Ok(|old(db.ledger)| + 1)
          && db.users == Adjusted(old(db.users), uid, -amount)
          && db.ledger == old(db.ledger) + [Transaction(|old(db.ledger)| + 1, Some(uid), None, amount, Withdraw, now)]
  {
    var parsed := WithdrawAmount(data);
    if parsed.None? {
      return Err(InvalidInput);
    }
    r := DebitWithdrawal(db, uid, parsed.value, now);
  }

  /** The store part of `process_withdraw`, once the amount is read from the button. */
  method DebitWithdrawal(db: Database, uid: int, amount: real, now: int) returns (r: Result<nat>)
    requires db.Valid()
    modifies db
    ensures db.Valid()
    ensures db.promos == old(db.promos)
    ensures if uid !in old(db.users) then
        r == Err(NotFound) && db.users == old(db.users) && db.ledger == old(db.ledger)
      else if old(db.users)[uid].balance < amount then
        && r == Err(Insufficient(old(db.users)[uid].balance))
        && db.users == old(db.users) && db.ledger == old(db.ledger)
      else
        && r == Ok(|old(db.ledger)| + 1)
        && db.users == Adjusted(old(db.users), uid, -amount)
        && db.ledger == old(db.ledger) + [Transaction(|old(db.ledger)| + 1, Some(uid), None, amount, Withdraw, now)]
  {
    var user := db.GetUser(uid);
    if user.None? {
      return Err(NotFound);
    }
    if user.value.balance < amount {
      return Err(Insufficient(user.value.balance));
    }
    ghost var users0, ledger0 := db.users, db.ledger;
    var debited := db.UpdateBalance(uid, -amount);
    var t := db.CreateTransaction(Some(uid), None, amount, Withdraw, now);
    PostingKeepsInvariants(users0, ledger0, t, uid, -amount);
    r := Ok(t.id);
  }

  // ---------------------------------------------------------------- admin actions

  /**
   * `process_add_stars`: an admin credits a positive amount to the selected
   * account, logged as an `admin_add` row sent by the admin.
   */
  method ProcessAddStars(db: Database, caller: int, admins: seq<int>, selected: Option<int>, text: string, now: int)
    returns (r: Result<nat>)
    requires db.Valid()
    modifies db
    ensures db.Valid()
    ensures db.promos == old(db.promos)
    ensures r.Err? ==> db.users == old(db.users) && db.ledger == old(db.ledger)
    ensures !IsAdmin(admins, caller) ==> r == Err(Denied)
    ensures IsAdmin(admins, caller) ==> match ParseAmount(text)
      case None => r == Err(InvalidInput)
      case Some(amount) =>
        if selected.None? || selected.value !in old(db.users) then r == Err(NotFound)
        else
          && r == Ok(|old(db.ledger)| + 1)
          && db.users == Adjusted(old(db.users), selected.value, amount)
          && db.ledger == old(db.ledger) + [Transaction(|old(db.ledger)| + 1, Some(caller), selected, amount, AdminAdd, now)]
  {
    if !IsAdmin(admins, caller) {
      return Err(Denied);
    }
    var parsed := ParseAmount(text);
    if parsed.None? {
      return Err(InvalidInput);
    }
    var amount := parsed.value;
    if selected.None? || db.GetUser(selected.value).None? {
      return Err(NotFound);
    }
    var target := selected.value;
    ghost var users0, ledger0 := db.users, db.ledger;
    var credited := db.UpdateBalance(target, amount);
    var t := db.CreateTransaction(Some(caller), selected, amount, AdminAdd, now);
    PostingKeepsInvariants(users0, ledger0, t, target, amount);
    r := Ok(t.id);
  }

  /**
   * `process_remove_stars`: an admin debits a positive amount the selected
   * account's balance covers, logged as a positive `admin_remove` row
   * received by that account.
   */
  method ProcessRemoveStars(db: Database, caller: int, admins: seq<int>, selected: Option<int>, text: string, now: int)
    returns (r: Result<nat>)
    requires db.Valid()
    modifies db
    ensures db.Valid()
    ensures db.promos == old(db.promos)
    ensures r.Err? ==> db.users == old(db.users) && db.ledger == old(db.ledger)
    ensures !IsAdmin(admins, caller) ==> r == Err(Denied)
    ensures IsAdmin(admins, caller) ==> match ParseAmount(text)
      case None => r == Err(InvalidInput)
      case Some(amount) =>
        if selected.None? || selected.value !in old(db.users) then r == Err(NotFound)
        else if old(db.users)[selected.value].balance < amount then
          r == Err(Insufficient(old(db.users)[selected.value].balance))
        else
          && r == Ok(|old(db.ledger)| + 1)
          && db.users == Adjusted(old(db.users), selected.value, -amount)
          && db.ledger == old(db.ledger) + [Transaction(|old(db.ledger)| + 1, Some(caller), selected, amount, AdminRemove, now)]
  {
    if !IsAdmin(admins, caller) {
      return Err(Denied);
    }
    var parsed := ParseAmount(text);
    if parsed.None? {
      return Err(InvalidInput);
    }
    if selected.None? {
      return Err(NotFound);
    }
    r := RevokeStars(db, caller, selected.value, parsed.value, now);
  }

  /** The store part of `process_remove_stars`, once the amount is read and an account selected. */
  method RevokeStars(db: Database, caller: int, target: int, amount: real, now: int) returns (r: Result<nat>)
    requires db.Valid()
    modifies db
    ensures db.Valid()
    ensures db.promos == old(db.promos)
    ensures if target !in old(db.users) then
        r == Err(NotFound) && db.users == old(db.users) && db.ledger == old(db.ledger)
      else if old(db.users)[target].balance < amount then
        && r == Err(Insufficient(old(db.users)[target].balance))
        && db.users == old(db.users) && db.ledger == old(db.ledger)
      else
        && r == Ok(|old(db.ledger)| + 1)
        && db.users == Adjusted(old(db.users), target, -amount)
        && db.ledger == old(db.ledger) + [Transaction(|old(db.ledger)| + 1, Some(caller), Some(target), amount, AdminRemove, now)]
  {
    var user := db.GetUser(target);
    if user.None? {
      return Err(NotFound);
    }
    if user.value.balance < amount {
      return Err(Insufficient(user.value.balance));
    }
    ghost var users0, ledger0 := db.users, db.ledger;
    var debited := db.UpdateBalance(target, -amount);
    var t := db.CreateTransaction(Some(caller), Some(target), amount, AdminRemove, now);
    PostingKeepsInvariants(users0, ledger0, t, target, -amount);
    r := Ok(t.id);
  }

  /**
   * `admin_reset_balance`: an admin sets the selected account's non-zero
   * balance to 0, logged as an `admin_reset` row carrying the old balance.
   */
  method AdminResetBalance(db: Database, caller: int, admins: seq<int>, selected: Option<int>, now: int)
    returns (r: Result<nat>)
    requires db.Valid()
    modifies db
    ensures db.Valid()
    ensures db.promos == old(db.promos)
    ensures r.Err? ==> db.users == old(db.users) && db.ledger == old(db.ledger)
    ensures !IsAdmin(admins, caller) ==> r == Err(Denied)
    ensures IsAdmin(admins, caller) ==>
      if selected.None? || selected.value !in old(db.users) then r == Err(NotFound)
      else
        var u := old(db.users)[selected.value];
        if u.balance == 0.0 then r == Err(AlreadyZero)
        else
          && r == Ok(|old(db.ledger)| + 1)
          && db.users == old(db.users)[selected.value := u.(balance := 0.0)]
          && db.ledger == old(db.ledger) + [Transaction(|old(db.ledger)| + 1, Some(caller), selected, u.balance, AdminReset, now)]
  {
    if !IsAdmin(admins, caller) {
      return Err(Denied);
    }
    if selected.None? {
      return Err(NotFound);
    }
    var target := selected.value;
    var user := db.GetUser(target);
    if user.None? {
      return Err(NotFound);
    }
    if user.value.balance == 0.0 {
      return Err(AlreadyZero);
    }
    var oldBalance := user.value.balance;
    var users0, ledger0 := db.users, db.ledger;
    db.users := db.users[target := db.users[target].(balance := 0.0)];
    var t := db.CreateTransaction(Some(caller), selected, oldBalance, AdminReset, now);
    PostingReconciles(users0, ledger0, t);
    assert Adjusted(users0, target, Signed(t)) == db.users;
    r := Ok(t.id);
  }

  /**
   * `process_create_promocode`: an admin's `CODE AMOUNT USES` line creates
   * an active code, stored upper-case, unless one with that name exists.
   */
  method ProcessCreatePromocode(db: Database, caller: int, admins: seq<int>, text: string) returns (r: Result<string>)
    requires db.Valid()
    modifies db
    ensures db.Valid()
    ensures db.users == old(db.users) && db.ledger == old(db.ledger)
    ensures r.Err? ==> db.promos == old(db.promos)
    ensures !IsAdmin(admins, caller) ==> r == Err(Denied)
    ensures IsAdmin(admins, caller) ==> match ParsePromoSpec(text)
      case None => r == Err(InvalidInput)
      case Some(spec) =>
        if spec.code in old(db.promos) then r == Err(Duplicate)
        else
          && r == Ok(spec.code)
          && db.promos == old(db.promos)[spec.code := Promocode(spec.reward, spec.uses, true)]
  {
    if !IsAdmin(admins, caller) {
      return Err(Denied);
    }
    var parsed := ParsePromoSpec(text);
    if parsed.None? {
      return Err(InvalidInput);
    }
    var spec := parsed.value;
    if spec.code in db.promos {
      return Err(Duplicate);
    }
    var created := db.CreatePromocode(spec.code, spec.reward, spec.uses);
    r := Ok(spec.code);
  }

  /**
   * `process_ban_user`: an admin types an id; a registered account's ban
   * flag is flipped, and the new flag is returned.
   */
  method ProcessBanUser(db: Database, caller: int, admins: seq<int>, text: string) returns (r: Result<bool>)
    requires db.Valid()
    modifies db
    ensures db.Valid()
    ensures db.promos == old(db.promos) && db.ledger == old(db.ledger)
    ensures r.Err? ==> db.users == old(db.users)
    ensures !IsAdmin(admins, caller) ==> r == Err(Denied)
    ensures IsAdmin(admins, caller) ==> match BanTarget(text)
      case None => r == Err(InvalidInput)
      case Some(target) =>
        if target !in old(db.users) then r == Err(NotFound)
        else
          var u := old(db.users)[target];
          r == Ok(!u.banned) && db.users == old(db.users)[target := u.(banned := !u.banned)]
  {
    if !IsAdmin(admins, caller) {
      return Err(Denied);
    }
    var parsed := BanTarget(text);
    if parsed.None? {
      return Err(InvalidInput);
    }
    var target := parsed.value;
    var user := db.GetUser(target);
    if user.None? {
      return Err(NotFound);
    }
    ghost var users0 := db.users;
    var ok;
    if user.value.banned {
      ok := db.UnbanUser(target);
    } else {
      ok := db.BanUser(target);
    }
    FlagKeepsBalances(users0, db.users, db.ledger, target);
    r := Ok(!user.value.banned);
  }

  /**
   * `ban_user_direct` and `unban_user_direct`: the profile card's button
   * sets the ban flag of the account whose id its data carries to `ban`.
   */
  method SetBanDirect(db: Database, caller: int, admins: seq<int>, data: string, ban: bool) returns (r: Result<int>)
    requires db.Valid()
    modifies db
    ensures db.Valid()
    ensures db.promos == old(db.promos) && db.ledger == old(db.ledger)
    ensures r.Err? ==> db.users == old(db.users)
    ensures !IsAdmin(admins, caller) ==> r == Err(Denied)
    ensures IsAdmin(admins, caller) ==> match DirectTarget(data)
      case None => r == Err(InvalidInput)
      case Some(target) =>
        if target !in old(db.users) then r == Err(NotFound)
        else r == Ok(target) && db.users == old(db.users)[target := old(db.users)[target].(banned := ban)]
  {
    if !IsAdmin(admins, caller) {
      return Err(Denied);
    }
    var parsed := DirectTarget(data);
    if parsed.None? {
      return Err(InvalidInput);
    }
    var target := parsed.value;
    ghost var users0, ledger0 := db.users, db.ledger;
    var ok;
    if ban {
      ok := db.BanUser(target);
    } else {
      ok := db.UnbanUser(target);
    }
    if !ok {
      assert db.users == users0;
      return Err(NotFound);
    }
    assert db.users == users0[target := users0[target].(banned := ban)] && db.ledger == ledger0;
    FlagKeepsBalances(users0, db.users, db.ledger, target);
    r := Ok(target);
  }
}
