/**
 * The bot's store: the `users` and `promocodes` tables keyed by Telegram id
 * and by code, and the append-only `transactions` table, together with the
 * helper operations the handlers call on them.
 *
 * Each store operation runs in a session of its own and commits on its own;
 * the handlers call the methods one after another. None of them fails
 * between two calls except the withdrawal as written, which
 * `Findings.ProcessWithdrawAsWritten` models.
 */
module Db {
  import opened Wrappers
  import opened Ledger

  /** A row of `users`; `registered` and `lastBonus` are clock readings in seconds. */
  datatype User = User(
    balance: real,
    referrer: Option<int>,
    lastBonus: Option<int>,
    banned: bool,
    username: Option<string>,
    registered: int)

  /** A row of `promocodes`. */
  datatype Promocode = Promocode(reward: real, usesLeft: int, active: bool)

  /** The row `create_user` inserts: balance 0, not banned, no bonus claimed yet. */
  function NewUser(username: Option<string>, referrer: Option<int>, now: int): User {
    User(0.0, referrer, None, false, username, now)
  }

  /** `users` after `balance += delta` on account `uid`. */
  function Adjusted(users: map<int, User>, uid: int, delta: real): map<int, User>
    requires uid in users
  {
    users[uid := users[uid].(balance := users[uid].balance + delta)]
  }

  // ---------------------------------------------------------------- invariants

  /** No balance is negative. */
  ghost predicate Solvent(users: map<int, User>) {
    forall u | u in users :: users[u].balance >= 0.0
  }

  /**
   * Every balance equals the kind-signed sum of the ledger rows of its
   * account, and the ledger records no movement for an id that has no account.
   */
  ghost predicate Reconciles(users: map<int, User>, l: seq<Transaction>) {
    && (forall u | u in users :: users[u].balance == Net(l, u))
    && (forall u | u !in users :: Net(l, u) == 0.0)
  }

  /** A code's reward is positive, its remaining uses are never negative, and it is active exactly while uses remain. */
  predicate SoundPromo(p: Promocode) {
    p.reward > 0.0 && p.usesLeft >= 0 && (p.active <==> p.usesLeft > 0)
  }

  ghost predicate PromosSound(promos: map<string, Promocode>) {
    forall c | c in promos :: SoundPromo(promos[c])
  }

  /** Appending a row while moving its account's balance by the row's signed amount keeps the ledger reconciled. */
  lemma PostingReconciles(users: map<int, User>, l: seq<Transaction>, t: Transaction)
    requires Reconciles(users, l)
    requires Holder(t).Some? && Holder(t).value in users
    ensures Reconciles(Adjusted(users, Holder(t).value, Signed(t)), l + [t])
  {
    NetAppend(l, t);
  }

  /** A balance change that leaves the account non-negative keeps every balance non-negative. */
  lemma CreditKeepsSolvent(users: map<int, User>, uid: int, delta: real)
    requires Solvent(users) && uid in users && users[uid].balance + delta >= 0.0
    ensures Solvent(Adjusted(users, uid, delta))
  {
  }

  /** Posting a row that moves account `uid` by `delta` and leaves it non-negative keeps both invariants on balances. */
  lemma PostingKeepsInvariants(users: map<int, User>, l: seq<Transaction>, t: Transaction, uid: int, delta: real)
    requires Solvent(users) && Reconciles(users, l)
    requires Holder(t) == Some(uid) && Signed(t) == delta && uid in users
    requires users[uid].balance + delta >= 0.0
    ensures Solvent(Adjusted(users, uid, delta))
    ensures Reconciles(Adjusted(users, uid, delta), l + [t])
  {
    CreditKeepsSolvent(users, uid, delta);
    PostingReconciles(users, l, t);
  }

  /** Reconciliation only looks at balances: changing other columns keeps it. */
  lemma BalancesOnlyReconcile(users: map<int, User>, users': map<int, User>, l: seq<Transaction>)
    requires Reconciles(users, l)
    requires users'.Keys == users.Keys
    requires forall u | u in users :: users'[u].balance == users[u].balance
    ensures Reconciles(users', l)
  {
  }

  /** Setting an account's ban flag leaves every balance, and so both invariants on them, as they were. */
  lemma FlagKeepsBalances(users: map<int, User>, users': map<int, User>, l: seq<Transaction>, uid: int)
    requires Solvent(users) && Reconciles(users, l) && uid in users
    requires uid in users' && users' == users[uid := users'[uid]] && users'[uid].balance == users[uid].balance
    ensures Solvent(users') && Reconciles(users', l)
  {
  }

  /** A newcomer starts at balance 0, which is what the ledger holds for an id without an account. */
  lemma JoiningReconciles(users: map<int, User>, l: seq<Transaction>, uid: int, nu: User)
    requires Reconciles(users, l) && uid !in users && nu.balance == 0.0
    ensures Reconciles(users[uid := nu], l)
  {
  }

  // ---------------------------------------------------------------- promo-code lifecycle

  /** `get_promocode`'s filter: active with uses left. */
  predicate Redeemable(p: Promocode) {
    p.active && p.usesLeft > 0
  }

  /** `use_promocode` on a row with uses left: one use fewer, deactivated when none remain. */
  function Redeemed(p: Promocode): Promocode {
    var n := p.usesLeft - 1;
    Promocode(p.reward, n, if n <= 0 then false else p.active)
  }

  /** For a sound code, being found by the lookup is just having uses left. */
  lemma RedeemableIffUsesLeft(p: Promocode)
    requires SoundPromo(p)
    ensures Redeemable(p) <==> p.usesLeft > 0
  {
  }

  lemma RedeemedSound(p: Promocode)
    requires SoundPromo(p) && p.usesLeft > 0
    ensures SoundPromo(Redeemed(p))
  {
  }

  function RedeemedTimes(p: Promocode, k: nat): Promocode {
    if k == 0 then p else Redeemed(RedeemedTimes(p, k - 1))
  }

  lemma {:induction false} RedeemedTimesState(p: Promocode, k: nat)
    requires SoundPromo(p) && k <= p.usesLeft
    ensures RedeemedTimes(p, k) == Promocode(p.reward, p.usesLeft - k, p.usesLeft - k > 0)
  {
    if k > 0 {
      RedeemedTimesState(p, k - 1);
    }
  }

  /** A code created with `n` uses is found by the lookup for exactly its first `n` redemptions. */
  lemma RedeemableExactlyUsesTimes(p: Promocode, k: nat)
    requires SoundPromo(p) && k <= p.usesLeft
    ensures Redeemable(RedeemedTimes(p, k)) <==> k < p.usesLeft
  {
    RedeemedTimesState(p, k);
  }

  // ---------------------------------------------------------------- the store

  class Database {
    var users: map<int, User>
    var promos: map<string, Promocode>
    var ledger: seq<Transaction>

    /** An empty store, as `create_all` leaves a fresh database file. */
    constructor ()
      ensures users == map[] && promos == map[] && ledger == []
      ensures Valid()
    {
      users := map[];
      promos := map[];
      ledger := [];
    }

    /** What every handler keeps. */
    ghost predicate Valid()
      reads this
    {
      Numbered(ledger) && Solvent(users) && Reconciles(users, ledger) && PromosSound(promos)
    }

    /** `get_user`. */
    function GetUser(uid: int): (r: Option<User>)
      reads this
      ensures r.Some? <==> uid in users
      ensures r.Some? ==> r.value == users[uid]
    {
      if uid in users then Some(users[uid]) else None
    }

    /** `create_user`; `None` is the unique-constraint failure on an id already registered. */
    method CreateUser(uid: int, username: Option<string>, referrer: Option<int>, now: int) returns (r: Option<User>)
      modifies this
      ensures promos == old(promos) && ledger == old(ledger)
      ensures uid in old(users) ==> r.None? && users == old(users)
      ensures uid !in old(users) ==>
        r == Some(NewUser(username, referrer, now)) && users == old(users)[uid := r.value]
    {
      if uid in users {
        return None;
      }
      var u := NewUser(username, referrer, now);
      users := users[uid := u];
      r := Some(u);
    }

    /** `update_balance`: adds `amount` (possibly negative) to a registered account; nothing for an unknown id. */
    method UpdateBalance(uid: int, amount: real) returns (r: Option<User>)
      modifies this
      ensures promos == old(promos) && ledger == old(ledger)
      ensures uid in old(users) ==> users == Adjusted(old(users), uid, amount) && r == Some(users[uid])
      ensures uid !in old(users) ==> users == old(users) && r.None?
    {
      if uid in users {
        users := Adjusted(users, uid, amount);
        r := Some(users[uid]);
      } else {
        r := None;
      }
    }

    /** `create_transaction`: appends a row under the next id. */
    method CreateTransaction(sender: Option<int>, receiver: Option<int>, amount: real, kind: Kind, now: int)
      returns (t: Transaction)
      modifies this
      ensures users == old(users) && promos == old(promos)
      ensures t == Transaction(|old(ledger)| + 1, sender, receiver, amount, kind, now)
      ensures ledger == old(ledger) + [t]
      ensures Numbered(old(ledger)) ==> Numbered(ledger)
    {
      t := Transaction(|ledger| + 1, sender, receiver, amount, kind, now);
      ledger := ledger + [t];
    }

    /** `get_promocode`: the row of an active code with uses left. */
    function GetPromocode(code: string): (r: Option<Promocode>)
      reads this
      ensures r.Some? <==> code in promos && Redeemable(promos[code])
      ensures r.Some? ==> r.value == promos[code]
    {
      if code in promos && Redeemable(promos[code]) then Some(promos[code]) else None
    }

    /** `use_promocode`: spends one use of a code that has uses left, whether or not it is active. */
    method UsePromocode(code: string) returns (ok: bool)
      modifies this
      ensures users == old(users) && ledger == old(ledger)
      ensures ok <==> code in old(promos) && old(promos)[code].usesLeft > 0
      ensures ok ==> promos == old(promos)[code := Redeemed(old(promos)[code])]
      ensures !ok ==> promos == old(promos)
      ensures PromosSound(old(promos)) ==> PromosSound(promos)
    {
      if code in promos && promos[code].usesLeft > 0 {
        promos := promos[code := Redeemed(promos[code])];
        ok := true;
      } else {
        ok := false;
      }
    }

    /** `create_promocode`: an active code; `false` is the unique-constraint failure on an existing code. */
    method CreatePromocode(code: string, reward: real, uses: int) returns (ok: bool)
      modifies this
      ensures users == old(users) && ledger == old(ledger)
      ensures ok <==> code !in old(promos)
      ensures ok ==> promos == old(promos)[code := Promocode(reward, uses, true)]
      ensures !ok ==> promos == old(promos)
    {
      if code in promos {
        return false;
      }
      promos := promos[code := Promocode(reward, uses, true)];
      ok := true;
    }

    /** `ban_user`. */
    method BanUser(uid: int) returns (ok: bool)
      modifies this
      ensures promos == old(promos) && ledger == old(ledger)
      ensures ok <==> uid in old(users)
      ensures ok ==> users == old(users)[uid := old(users)[uid].(banned := true)]
      ensures !ok ==> users == old(users)
    {
      if uid !in users {
        return false;
      }
      users := users[uid := users[uid].(banned := true)];
      ok := true;
    }

    /** `unban_user`. */
    method UnbanUser(uid: int) returns (ok: bool)
      modifies this
      ensures promos == old(promos) && ledger == old(ledger)
      ensures ok <==> uid in old(users)
      ensures ok ==> users == old(users)[uid := old(users)[uid].(banned := false)]
      ensures !ok ==> users == old(users)
    {
      if uid !in users {
        return false;
      }
      users := users[uid := users[uid].(banned := false)];
      ok := true;
    }

    /**
     * `get_user_transactions`: the newest `limit` rows received by `uid`,
     * newest first.
     */
    function GetUserTransactions(uid: int, limit: nat): (r: seq<Transaction>)
      reads this
      ensures r == Take(Reverse(ReceivedBy(ledger, uid)), limit)
      ensures |r| <= limit
      ensures forall t | t in r :: t in ledger && t.receiver == Some(uid)
      ensures Numbered(ledger) ==> IdsDescending(r)
    {
      RecentIsNewestReceived(ledger, uid, limit);
      if Numbered(ledger) then
        RecentNewestFirst(ledger, uid, limit);
        Recent(ledger, uid, limit)
      else
        Recent(ledger, uid, limit)
    }
  }

  /** In a valid store the lookup finds a code exactly when it exists with uses left. */
  lemma GetPromocodeFindsUsable(db: Database, code: string)
    requires db.Valid()
    ensures db.GetPromocode(code).Some? <==> code in db.promos && db.promos[code].usesLeft > 0
  {
    if code in db.promos {
      RedeemableIffUsesLeft(db.promos[code]);
    }
  }
}
