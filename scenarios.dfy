/**
 * End-to-end runs of the handlers on a fresh store, each stating the
 * balances, rows and replies the bot ends with.
 */
module Scenarios {
  import opened Wrappers
  import opened Text
  import opened Rules
  import opened Ledger
  import opened Db
  import opened Handlers

  /**
   * Account 1 is registered; account 100 first writes `/start 1` and is
   * registered with 1 as referrer, 1 is credited 8.5 stars and one
   * `referral` row is logged. Sending `/start 1` again pays nothing more, and
   * account 5 sending `/start 5` earns nothing.
   */
  method ReferralJoin() returns (inviter: real, newcomer: real, selfReferrer: real, rows: seq<Transaction>)
    ensures inviter == ReferralReward && newcomer == 0.0 && selfReferrer == 0.0
    ensures rows == [Transaction(1, Some(100), Some(1), ReferralReward, Referral, 10)]
  {
    var db := new Database();
    var a := CheckUser(db, 1, None, None, 0);
    assert db.users == map[1 := NewUser(None, None, 0)] && db.ledger == [];
    StartCommandRoundTrip(1);
    a := CheckUser(db, 100, None, Some(StartCommand(1)), 10);
    assert db.users[1].balance == ReferralReward && db.users[100] == NewUser(None, Some(1), 10);
    ghost var afterJoin := db.users;
    a := CheckUser(db, 100, None, Some(StartCommand(1)), 20);
    assert db.users == afterJoin;
    StartCommandRoundTrip(5);
    assert 5 !in db.users && !ReferralCandidate(Some(5), 5);
    a := CheckUser(db, 5, None, Some(StartCommand(5)), 30);
    assert db.users == afterJoin[5 := NewUser(None, Some(5), 30)];
    inviter, newcomer, selfReferrer := db.users[1].balance, db.users[100].balance, db.users[5].balance;
    rows := db.ledger;
  }

  /** An amount typed as a whole number of stars is read as that amount. */
  lemma TypedWhole(n: int)
    requires n > 0
    ensures ParseAmount(ShowInt(n)) == Some(n as real)
  {
    var w := ShowInt(n);
    ShowIntIsWord(n);
    StripTrimmed(w);
    ParseShowInt(n);
    ParseAmountOfNumeral(w, w, n);
  }

  /** A store holding only account `uid`, registered by a first message at second 0. */
  method FreshAccount(uid: int) returns (db: Database)
    ensures fresh(db) && db.Valid()
    ensures db.users == map[uid := NewUser(None, None, 0)] && db.promos == map[] && db.ledger == []
  {
    db := new Database();
    var admitted := CheckUser(db, uid, None, None, 0);
  }

  /** Moving the balance of the only account in a store. */
  lemma SingletonAdjusted(uid: int, u: User, delta: real)
    ensures Adjusted(map[uid := u], uid, delta) == map[uid := u.(balance := u.balance + delta)]
  {
    var m := map[uid := u];
    assert m[uid := m[uid].(balance := m[uid].balance + delta)] == map[uid := u.(balance := u.balance + delta)];
  }

  /** Admin 7 typing `text`, which reads as `grant` stars, for the selected account `uid`, at second 1. */
  method GrantStep(db: Database, uid: int, grant: int, text: string) returns (r: Result<nat>)
    requires grant > 0 && ParseAmount(text) == Some(grant as real)
    requires db.Valid()
    requires db.users == map[uid := NewUser(None, None, 0)] && db.ledger == []
    modifies db
    ensures db.Valid() && r == Ok(1)
    ensures db.users == map[uid := NewUser(None, None, 0).(balance := grant as real)] && db.promos == old(db.promos)
    ensures db.ledger == [Transaction(1, Some(7), Some(uid), grant as real, AdminAdd, 1)]
  {
    ghost var users0, ledger0 := db.users, db.ledger;
    SingletonAdjusted(uid, NewUser(None, None, 0), grant as real);
    assert NewUser(None, None, 0).(balance := 0.0 + grant as real) == NewUser(None, None, 0).(balance := grant as real);
    ghost var users1 := map[uid := NewUser(None, None, 0).(balance := grant as real)];
    assert Adjusted(users0, uid, grant as real) == users1;
    assert |ledger0| + 1 == 1;
    r := ProcessAddStars(db, 7, [7], Some(uid), text, 1);
    assert db.users == users1;
  }

  /** The same account after admin 7 granted it `grant` whole stars at second 1. */
  method GrantedAccount(uid: int, grant: int) returns (db: Database)
    requires grant > 0
    ensures fresh(db) && db.Valid()
    ensures db.users == map[uid := NewUser(None, None, 0).(balance := grant as real)] && db.promos == map[]
    ensures db.ledger == [Transaction(1, Some(7), Some(uid), grant as real, AdminAdd, 1)]
  {
    db := FreshAccount(uid);
    TypedWhole(grant);
    var r := GrantStep(db, uid, grant, ShowInt(grant));
  }

  /**
   * An admin creates a single-use code worth `reward` stars, typing the
   * code in any letter case; it is stored upper-cased.
   */
  method PromoStore(typed: string, reward: int) returns (db: Database)
    requires IsWord(typed) && reward > 0
    ensures fresh(db) && db.Valid()
    ensures db.users == map[200 := NewUser(None, None, 0), 201 := NewUser(None, None, 0)] && db.ledger == []
    ensures db.promos == map[Upper(typed) := Promocode(reward as real, 1, true)]
  {
    db := FreshAccount(200);
    var a := CheckUser(db, 201, None, None, 0);
    PromoSpecRoundTrip(typed, reward, 1);
    var created := ProcessCreatePromocode(db, 7, [7], typed + " " + ShowInt(reward) + " " + ShowInt(1));
  }

  /** Account 200 typing `typed`, which reads as the stored `code`, at second 100. */
  method FirstRedemption(db: Database, typed: string, code: string, reward: int) returns (first: Result<nat>)
    requires NormalizeCode(typed) == code && reward > 0
    requires db.Valid()
    requires db.users == map[200 := NewUser(None, None, 0), 201 := NewUser(None, None, 0)] && db.ledger == []
    requires db.promos == map[code := Promocode(reward as real, 1, true)]
    modifies db
    ensures db.Valid() && first == Ok(1)
    ensures 200 in db.users && 201 in db.users && db.users[200].balance == reward as real
    ensures db.promos == map[code := Promocode(reward as real, 0, false)]
  {
    ghost var ledger0 := db.ledger;
    assert |ledger0| == 0;
    first := ProcessPromocode(db, 200, typed, 100);
  }

  /**
   * The first account to type a single-use code, as the admin typed it, is
   * credited the reward and the code is used up; the next account, typing
   * the code as stored, is told it does not exist.
   */
  method SingleUseCode(typed: string, reward: int) returns (first: Result<nat>, second: Result<nat>, balance: real, code: Promocode)
    requires IsWord(typed) && reward > 0
    ensures first == Ok(1) && second == Err(NotFound)
    ensures balance == reward as real && code == Promocode(reward as real, 0, false)
  {
    var db := PromoStore(typed, reward);
    var stored := Upper(typed);
    assert "" + typed + "" == typed;
    NormalizePaddedWord("", typed, "");
    first := FirstRedemption(db, typed, stored, reward);
    NormalizeCodeIgnoresCase(typed);
    ghost var users1, promos1 := db.users, db.promos;
    second := ProcessPromocode(db, 201, stored, 200);
    assert db.users == users1 && db.promos == promos1;
    balance, code := db.users[200].balance, db.promos[stored];
  }

  /**
   * A claim at second 1000 pays 0.5 stars; a second claim an hour later is
   * refused until second 1000 + 86400; a claim at that second pays again.
   */
  method BonusOncePerDay() returns (first: Result<nat>, again: Result<nat>, nextDay: Result<nat>, balance: real)
    ensures first == Ok(1) && again == Err(TooSoon(1000 + SecondsPerDay)) && nextDay == Ok(2)
    ensures balance == 2.0 * DailyBonus
  {
    var db := FreshAccount(300);
    first := ClaimDailyBonus(db, 300, 1000);
    again := ClaimDailyBonus(db, 300, 1000 + 3600);
    nextDay := ClaimDailyBonus(db, 300, 1000 + SecondsPerDay);
    balance := db.users[300].balance;
  }

  /** Admin 7 typing `text`, which reads as `revoke` stars, to take them from account 400 at second 2. */
  method RevokeStep(db: Database, grant: int, revoke: int, text: string) returns (r: Result<nat>)
    requires 0 < revoke <= grant && ParseAmount(text) == Some(revoke as real)
    requires db.Valid()
    requires db.users == map[400 := NewUser(None, None, 0).(balance := grant as real)]
    requires db.ledger == [Transaction(1, Some(7), Some(400), grant as real, AdminAdd, 1)]
    modifies db
    ensures db.Valid() && r == Ok(2)
    ensures db.users == map[400 := NewUser(None, None, 0).(balance := (grant - revoke) as real)]
    ensures db.ledger == [Transaction(1, Some(7), Some(400), grant as real, AdminAdd, 1),
                          Transaction(2, Some(7), Some(400), revoke as real, AdminRemove, 2)]
  {
    ghost var users0, ledger0 := db.users, db.ledger;
    SingletonAdjusted(400, users0[400], -(revoke as real));
    ghost var users1 := map[400 := NewUser(None, None, 0).(balance := (grant - revoke) as real)];
    assert users0[400].(balance := grant as real + -(revoke as real)) == users1[400];
    assert Adjusted(users0, 400, -(revoke as real)) == users1;
    assert |ledger0| + 1 == 2;
    r := ProcessRemoveStars(db, 7, [7], Some(400), text, 2);
    assert db.users == users1;
  }

  /**
   * An admin grants `grant` stars and then revokes `revoke`: the balance is
   * the difference, but both rows carry positive amounts and both name the
   * account as receiver, so adding up the amounts it received gives the
   * sum. The history lists the revocation first.
   */
  method DebitsLoggedPositive(grant: int, revoke: int) returns (balance: real, plain: real, history: seq<Transaction>)
    requires 0 < revoke <= grant
    ensures balance == (grant - revoke) as real && plain == (grant + revoke) as real
    ensures history == [Transaction(2, Some(7), Some(400), revoke as real, AdminRemove, 2),
                        Transaction(1, Some(7), Some(400), grant as real, AdminAdd, 1)]
  {
    var db := GrantedAccount(400, grant);
    TypedWhole(revoke);
    var r := RevokeStep(db, grant, revoke, ShowInt(revoke));
    var added := Transaction(1, Some(7), Some(400), grant as real, AdminAdd, 1);
    var removed := Transaction(2, Some(7), Some(400), revoke as real, AdminRemove, 2);
    TwoReceivedHistory(added, removed, 400);
    balance, plain := db.users[400].balance, PlainSum(db.ledger, 400);
    history := db.GetUserTransactions(400, 20);
  }

  /** Two rows received by `u`: their amounts add up, and the history lists the later one first. */
  lemma TwoReceivedHistory(a: Transaction, b: Transaction, u: int)
    requires a.receiver == Some(u) && b.receiver == Some(u)
    ensures PlainSum([a, b], u) == a.amount + b.amount
    ensures Take(Reverse(ReceivedBy([a, b], u)), 20) == [b, a]
  {
    assert [a, b][..1] == [a] && [a][..0] == [];
    assert PlainSum([a], u) == a.amount;
    RecentIsNewestReceived([a, b], u, 20);
    assert Recent([a], u, 19) == [a];
  }

  /** A row received by `u` followed by a withdrawal row, which has no receiver: the history shows only the first. */
  lemma ReceivedThenWithdrawn(a: Transaction, w: Transaction, u: int)
    requires a.receiver == Some(u) && w.receiver.None?
    ensures Take(Reverse(ReceivedBy([a, w], u)), 20) == [a]
  {
    assert [a, w][..1] == [a] && [a][..0] == [];
    RecentIsNewestReceived([a, w], u, 20);
    assert Recent([a], u, 20) == [a];
  }

  /** Pressing the 25-star button on a balance of `grant` stars, at second 2. */
  /** Debiting 25 of a lone account's `grant` stars leaves it `grant - 25`. */
  lemma WithdrawnBalance(grant: int)
    ensures Adjusted(map[500 := NewUser(None, None, 0).(balance := grant as real)], 500, -25.0)
         == map[500 := NewUser(None, None, 0).(balance := (grant - 25) as real)]
  {
    var u := NewUser(None, None, 0).(balance := grant as real);
    SingletonAdjusted(500, u, -25.0);
    assert u.(balance := u.balance + -25.0) == NewUser(None, None, 0).(balance := (grant - 25) as real);
  }

  method WithdrawStep(db: Database, grant: int, data: string) returns (first: Result<nat>)
    requires 25 <= grant && WithdrawAmount(data) == Some(25.0)
    requires db.Valid()
    requires db.users == map[500 := NewUser(None, None, 0).(balance := grant as real)]
    requires db.ledger == [Transaction(1, Some(7), Some(500), grant as real, AdminAdd, 1)]
    modifies db
    ensures db.Valid() && first == Ok(2)
    ensures db.users == map[500 := NewUser(None, None, 0).(balance := (grant - 25) as real)]
    ensures db.ledger == [Transaction(1, Some(7), Some(500), grant as real, AdminAdd, 1),
                          Transaction(2, Some(500), None, 25.0, Withdraw, 2)]
  {
    WithdrawnBalance(grant);
    first := ProcessWithdraw(db, 500, data, 2);
  }

  /** Pressing the 25-star button again at second 3, on the `grant - 25` stars left. */
  method RefusedStep(db: Database, grant: int, data: string) returns (second: Result<nat>)
    requires grant < 50 && WithdrawAmount(data) == Some(25.0)
    requires db.Valid()
    requires db.users == map[500 := NewUser(None, None, 0).(balance := (grant - 25) as real)]
    modifies db
    ensures db.Valid() && second == Err(Insufficient((grant - 25) as real))
    ensures db.users == old(db.users) && db.ledger == old(db.ledger)
  {
    second := ProcessWithdraw(db, 500, data, 3);
  }

  /** The granted account opening the withdrawal menu and pressing the 25-star button. */
  method WithdrawnAccount(grant: int, data: string) returns (db: Database, menu: Result<real>, first: Result<nat>)
    requires 25 <= grant && WithdrawAmount(data) == Some(25.0)
    ensures fresh(db) && db.Valid()
    ensures menu == Ok(grant as real) && first == Ok(2)
    ensures db.users == map[500 := NewUser(None, None, 0).(balance := (grant - 25) as real)]
    ensures db.ledger == [Transaction(1, Some(7), Some(500), grant as real, AdminAdd, 1),
                          Transaction(2, Some(500), None, 25.0, Withdraw, 2)]
  {
    db := GrantedAccount(500, grant);
    menu := WithdrawMenu(db.users[500]);
    first := WithdrawStep(db, grant, data);
  }

  /**
   * An account granted `grant` stars, at least 25 and less than 50, sees the
   * withdrawal menu, withdraws 25, is refused a second 25, and no longer
   * sees the menu. The withdrawal is logged without a receiver, so the
   * account's own history shows only the grant.
   */
  method WithdrawTwice(grant: int) returns (menu: Result<real>, first: Result<nat>, second: Result<nat>, after: Result<real>, history: seq<Transaction>)
    requires 25 <= grant < 50
    ensures menu == Ok(grant as real) && first == Ok(2)
    ensures second == Err(Insufficient((grant - 25) as real)) && after == Err(Insufficient((grant - 25) as real))
    ensures history == [Transaction(1, Some(7), Some(500), grant as real, AdminAdd, 1)]
  {
    var data := WithdrawButton(25);
    WithdrawButtonRoundTrip(25);
    var db;
    db, menu, first := WithdrawnAccount(grant, data);
    second := RefusedStep(db, grant, data);
    after := WithdrawMenu(db.users[500]);
    ReceivedThenWithdrawn(db.ledger[0], db.ledger[1], 500);
    assert db.ledger == [db.ledger[0], db.ledger[1]];
    history := db.GetUserTransactions(500, 20);
  }

  /** Admin 7 typing `text`, which names account `id`, to flip its ban flag. */
  method BanStep(db: Database, id: int, text: string, banned: bool) returns (r: Result<bool>)
    requires BanTarget(text) == Some(id)
    requires db.Valid()
    requires db.users == map[id := NewUser(None, None, 0).(banned := banned)] && db.ledger == []
    modifies db
    ensures db.Valid() && r == Ok(!banned)
    ensures db.users == map[id := NewUser(None, None, 0).(banned := !banned)] && db.ledger == []
  {
    ghost var users0 := db.users;
    ghost var users1 := map[id := NewUser(None, None, 0).(banned := !banned)];
    assert users0[id := users0[id].(banned := !users0[id].banned)] == users1;
    r := ProcessBanUser(db, 7, [7], text);
  }

  /**
   * An admin bans an account by typing its id: its next message and its
   * button presses are turned away. Typing the id again lifts the ban.
   */
  method BanAndUnban(id: int) returns (banned: Result<bool>, message: bool, press: bool, lifted: Result<bool>, messageAfter: bool)
    ensures banned == Ok(true) && !message && !press
    ensures lifted == Ok(false) && messageAfter
  {
    var db := FreshAccount(id);
    var typed := ShowInt(id);
    BanTargetRoundTrip(id);
    assert NewUser(None, None, 0).(banned := false) == NewUser(None, None, 0);
    banned := BanStep(db, id, typed, false);
    message := CheckUser(db, id, None, None, 10);
    press := CallbackAdmitted(db, id);
    lifted := BanStep(db, id, typed, true);
    messageAfter := CheckUser(db, id, None, None, 20);
  }

  /** Resetting a balance of `amount` stars logs an `admin_reset` row of that amount; resetting it again is refused. */
  method ResetTwice(amount: int) returns (first: Result<nat>, second: Result<nat>, balance: real, rows: seq<Transaction>)
    requires amount > 0
    ensures first == Ok(2) && second == Err(AlreadyZero) && balance == 0.0
    ensures |rows| == 2 && rows[1] == Transaction(2, Some(7), Some(700), amount as real, AdminReset, 2)
  {
    var db := GrantedAccount(700, amount);
    first := AdminResetBalance(db, 7, [7], Some(700), 2);
    second := AdminResetBalance(db, 7, [7], Some(700), 3);
    balance, rows := db.users[700].balance, db.ledger;
  }
}
