/**
 * The `transactions` table: its records, how each record moves the balance
 * of the account it concerns, and the per-user history query.
 *
 * Every amount is recorded as a positive number, debits included: a
 * withdrawal, an admin revocation and an admin reset all store the amount
 * taken. The kind of the record, not the sign of its amount, says which way
 * the balance moved.
 */
module Ledger {
  import opened Wrappers

  /** The `type` column. */
  datatype Kind = Referral | Bonus | Promo | Withdraw | AdminAdd | AdminRemove | AdminReset

  /** The string stored in the `type` column for each kind. */
  function KindName(k: Kind): string {
    match k
    case Referral => "referral"
    case Bonus => "bonus"
    case Promo => "promo"
    case Withdraw => "withdraw"
    case AdminAdd => "admin_add"
    case AdminRemove => "admin_remove"
    case AdminReset => "admin_reset"
  }

  /**
   * One row. `receiver` is optional because the withdrawal record is written
   * without one; `timestamp` is the clock reading passed to the operation.
   */
  datatype Transaction = Transaction(
    id: nat,
    sender: Option<int>,
    receiver: Option<int>,
    amount: real,
    kind: Kind,
    timestamp: int)

  /** Distinct kinds are stored under distinct `type` strings, so the column determines the kind. */
  lemma KindNamesDistinct(j: Kind, k: Kind)
    ensures KindName(j) == KindName(k) ==> j == k
  {
  }

  /** The kinds that take stars away from an account. */
  predicate IsDebit(k: Kind) {
    k == Withdraw || k == AdminRemove || k == AdminReset
  }

  /** The account whose balance the record accompanies: the sender of a withdrawal, the receiver otherwise. */
  function Holder(t: Transaction): Option<int> {
    if t.kind == Withdraw then t.sender else t.receiver
  }

  /** The balance change the record stands for, signed by its kind. */
  function Signed(t: Transaction): real {
    if IsDebit(t.kind) then -t.amount else t.amount
  }

  function Effect(t: Transaction, u: int): real {
    if Holder(t) == Some(u) then Signed(t) else 0.0
  }

  /** The net change of `u`'s balance that the ledger records. */
  function Net(l: seq<Transaction>, u: int): real {
    if l == [] then 0.0 else Net(l[..|l| - 1], u) + Effect(l[|l| - 1], u)
  }

  lemma NetAppend(l: seq<Transaction>, t: Transaction)
    ensures forall u :: Net(l + [t], u) == Net(l, u) + Effect(t, u)
  {
    assert (l + [t])[..|l|] == l;
  }

  /** The plain sum of the amounts of the rows `u` received, ignoring the kinds. */
  function PlainSum(l: seq<Transaction>, u: int): real {
    if l == [] then 0.0
    else PlainSum(l[..|l| - 1], u) + (if l[|l| - 1].receiver == Some(u) then l[|l| - 1].amount else 0.0)
  }

  /** Ids are assigned 1, 2, 3, ... in insertion order (no row is ever deleted). */
  predicate Numbered(l: seq<Transaction>) {
    forall i | 0 <= i < |l| :: l[i].id == i + 1
  }

  // ---------------------------------------------------------------- history query

  /** The rows whose `receiver_id` is `u`, oldest first. */
  function ReceivedBy(l: seq<Transaction>, u: int): seq<Transaction> {
    if l == [] then []
    else ReceivedBy(l[..|l| - 1], u) + (if l[|l| - 1].receiver == Some(u) then [l[|l| - 1]] else [])
  }

  function Reverse<T>(s: seq<T>): seq<T> {
    if s == [] then [] else [s[|s| - 1]] + Reverse(s[..|s| - 1])
  }

  /** SQL's `LIMIT n`. */
  function Take<T>(s: seq<T>, n: nat): seq<T> {
    if n <= |s| then s[..n] else s
  }

  /**
   * `get_user_transactions(user_id, limit)`: the rows received by `u`,
   * newest first, at most `limit` of them, scanning the table from its end.
   */
  function Recent(l: seq<Transaction>, u: int, limit: nat): (r: seq<Transaction>)
    ensures |r| <= limit
    ensures forall t | t in r :: t in l && t.receiver == Some(u)
  {
    if l == [] || limit == 0 then []
    else
      var t := l[|l| - 1];
      if t.receiver == Some(u) then [t] + Recent(l[..|l| - 1], u, limit - 1)
      else Recent(l[..|l| - 1], u, limit)
  }

  /** The history is the newest `limit` rows of the ones `u` received. */
  lemma {:induction false} RecentIsNewestReceived(l: seq<Transaction>, u: int, limit: nat)
    ensures Recent(l, u, limit) == Take(Reverse(ReceivedBy(l, u)), limit)
  {
    if l == [] || limit == 0 {
    } else {
      var p, t := l[..|l| - 1], l[|l| - 1];
      var rp := ReceivedBy(p, u);
      if t.receiver == Some(u) {
        RecentIsNewestReceived(p, u, limit - 1);
        var s := rp + [t];
        assert ReceivedBy(l, u) == s;
        assert s[|s| - 1] == t && s[..|s| - 1] == rp;
        assert Reverse(s) == [t] + Reverse(rp);
        ReverseLength(rp);
        assert Take([t] + Reverse(rp), limit) == [t] + Take(Reverse(rp), limit - 1);
      } else {
        assert rp + [] == rp;
        RecentIsNewestReceived(p, u, limit);
      }
    }
  }

  lemma {:induction false} ReverseLength<T>(s: seq<T>)
    ensures |Reverse(s)| == |s|
  {
    if s != [] {
      ReverseLength(s[..|s| - 1]);
    }
  }

  lemma NumberedPrefix(l: seq<Transaction>, n: nat)
    requires Numbered(l) && n <= |l|
    ensures Numbered(l[..n])
  {
  }

  predicate IdsDescending(r: seq<Transaction>) {
    forall i, j | 0 <= i < j < |r| :: r[i].id > r[j].id
  }

  lemma ConsDescending(t: Transaction, rest: seq<Transaction>)
    requires IdsDescending(rest)
    requires forall x | x in rest :: x.id < t.id
    ensures IdsDescending([t] + rest)
  {
    var r := [t] + rest;
    forall i, j | 0 <= i < j < |r|
      ensures r[i].id > r[j].id
    {
      assert r[j] == rest[j - 1];
      if i > 0 {
        assert r[i] == rest[i - 1];
      }
    }
  }

  /** In a numbered table the history is in strictly decreasing id order, i.e. newest first. */
  lemma {:induction false} RecentNewestFirst(l: seq<Transaction>, u: int, limit: nat)
    requires Numbered(l)
    ensures IdsDescending(Recent(l, u, limit))
  {
    if l != [] && limit > 0 {
      var p, t := l[..|l| - 1], l[|l| - 1];
      NumberedPrefix(l, |l| - 1);
      if t.receiver == Some(u) {
        var rest := Recent(p, u, limit - 1);
        RecentNewestFirst(p, u, limit - 1);
        forall x | x in rest
          ensures x.id < t.id
        {
          var k :| 0 <= k < |p| && p[k] == x;
          assert x == l[k];
        }
        ConsDescending(t, rest);
      } else {
        RecentNewestFirst(p, u, limit);
      }
    }
  }
}
