/**
 * Two places where the code as written does not do what it evidently
 * intends. Each is modelled as written, with a lemma exhibiting the input
 * that shows it; the rest of the model uses the corrected behaviour
 * (`Rules.ParseAmount` and `Handlers.ProcessWithdraw`).
 */
module Findings {
  import opened Wrappers
  import opened Text
  import opened Rules
  import opened Ledger
  import opened Db
  import opened Handlers

  // ---------------------------------------------------------------- 1. non-finite amounts

  /** A Python float: a finite value, an infinity, or NaN. */
  datatype Float = Finite(value: real) | Infinite(negative: bool) | NaN

  function LowerChar(c: char): char {
    if 'A' <= c <= 'Z' then (c as int + 32) as char else c
  }

  /** `lower()` on the ASCII letters: no upper-case letter is left, and every other character stays. */
  function Lower(s: string): (r: string)
    ensures |r| == |s|
    ensures forall i | 0 <= i < |s| :: !('A' <= r[i] <= 'Z')
    ensures forall i | 0 <= i < |s| :: !('A' <= s[i] <= 'Z') ==> r[i] == s[i]
  {
    seq(|s|, i requires 0 <= i < |s| => LowerChar(s[i]))
  }

  /** `nan`, `inf` or `infinity` in any letter case, after an optional sign. */
  predicate NonFiniteWord(t: string) {
    var word := Lower(if t != [] && IsSign(t[0]) then t[1..] else t);
    word == "nan" || word == "inf" || word == "infinity"
  }

  /**
   * `float(s)` as Python reads it: surrounding whitespace ignored, an
   * optional sign, and besides decimal numerals the words `nan`, `inf` and
   * `infinity` in any letter case.
   */
  function PyFloat(s: string): (r: Option<Float>)
    ensures r.Some? && r.value.Finite? ==> ParseDecimal(Strip(s)) == Some(r.value.value)
    ensures r.Some? && !r.value.Finite? ==> NonFiniteWord(Strip(s))
    ensures r.None? ==> ParseDecimal(Strip(s)).None?
  {
    var t := Strip(s);
    var body := if t != [] && IsSign(t[0]) then t[1..] else t;
    var word := Lower(body);
    if word == "nan" then Some(NaN)
    else if word == "inf" || word == "infinity" then Some(Infinite(t != [] && t[0] == '-'))
    else match ParseDecimal(t)
      case Some(x) => Some(Finite(x))
      case None => None
  }

  /** Python's `x <= 0`: false for NaN, as every comparison with NaN is. */
  predicate AtMostZero(x: Float) {
    match x
    case Finite(v) => v <= 0.0
    case Infinite(negative) => negative
    case NaN => false
  }

  /** Python's `a < b` on floats. */
  predicate Below(a: Float, b: Float) {
    match (a, b)
    case (Finite(x), Finite(y)) => x < y
    case (Infinite(na), Infinite(nb)) => na && !nb
    case (Infinite(na), Finite(_)) => na
    case (Finite(_), Infinite(nb)) => !nb
    case _ => false
  }

  /** The admin amount reading as written: `float(text.strip())`, refused only when `amount <= 0`. */
  function ParseAmountAsWritten(text: string): (r: Option<Float>)
    ensures r.Some? <==> PyFloat(text).Some? && !AtMostZero(PyFloat(text).value)
    ensures r.Some? ==> r == PyFloat(text)
  {
    match PyFloat(text)
    case None => None
    case Some(x) => if AtMostZero(x) then None else Some(x)
  }

  lemma LowerUnchanged(s: string)
    requires forall i | 0 <= i < |s| :: !('A' <= s[i] <= 'Z')
    ensures Lower(s) == s
  {
  }

  /** Any spelling of `nan`, in any letter case and with any surrounding whitespace, passes the guard. */
  lemma NanWordAccepted(text: string)
    requires Lower(Strip(text)) == "nan"
    ensures ParseAmountAsWritten(text) == Some(NaN)
  {
    var t := Strip(text);
    assert |t| == |Lower(t)| == 3;
    assert LowerChar(t[0]) == 'n';
    assert !IsSign(t[0]);
    assert PyFloat(text) == Some(NaN);
  }

  /** Any unsigned spelling of `inf` or `infinity`, in any letter case, passes the guard as positive infinity. */
  lemma InfWordAccepted(text: string)
    requires Lower(Strip(text)) == "inf" || Lower(Strip(text)) == "infinity"
    ensures ParseAmountAsWritten(text) == Some(Infinite(false))
  {
    var t := Strip(text);
    assert |t| == |Lower(t)| >= 3;
    assert LowerChar(t[0]) == 'i';
    assert !IsSign(t[0]) && Lower(t) != "nan";
    assert PyFloat(text) == Some(Infinite(false));
  }

  /** Typing `nan` as the amount passes the guard. */
  lemma NanAmountAccepted()
    ensures ParseAmountAsWritten("nan") == Some(NaN)
  {
    StripTrimmed("nan");
    LowerUnchanged("nan");
    NanWordAccepted("nan");
  }

  /** Typing `inf` as the amount passes the guard too. */
  lemma InfAmountAccepted()
    ensures ParseAmountAsWritten("inf") == Some(Infinite(false))
  {
    StripTrimmed("inf");
    LowerUnchanged("inf");
    InfWordAccepted("inf");
  }

  /** Python's comparisons with NaN are all false: NaN is not `<= 0`, and neither below nor above any value. */
  lemma NanIncomparable(x: Float)
    ensures !AtMostZero(NaN)
    ensures !Below(NaN, x) && !Below(x, NaN)
  {
  }

  /** Every text that reads as a decimal numeral starts, after its sign, with a digit or a dot. */
  lemma ParseDecimalStart(t: string)
    ensures ParseDecimal(t).Some? ==>
      var body := if t != [] && IsSign(t[0]) then t[1..] else t;
      body != [] && (IsDigit(body[0]) || body[0] == '.')
  {
    var body := if t != [] && IsSign(t[0]) then t[1..] else t;
    if ParseDecimal(t).Some? {
      assert ParseUnsignedDecimal(body).Some?;
      var k := DotIndex(body);
      if k < |body| && k > 0 {
        assert body[..k][0] == body[0];
      }
    }
  }

  /** A text that, once stripped, does not start with a sign, a digit or a dot is refused by the corrected reading. */
  lemma CorrectedAmountRefusesWord(text: string)
    requires Strip(text) != [] && !IsSign(Strip(text)[0]) && !IsDigit(Strip(text)[0]) && Strip(text)[0] != '.'
    ensures ParseAmount(text) == None
  {
    ParseDecimalStart(Strip(text));
  }

  /** The corrected reading refuses `nan` and `inf`. */
  lemma CorrectedAmountRefusesNonFinite()
    ensures ParseAmount("nan") == None
    ensures ParseAmount("inf") == None
  {
    StripTrimmed("nan");
    CorrectedAmountRefusesWord("nan");
    StripTrimmed("inf");
    CorrectedAmountRefusesWord("inf");
  }

  /** On every numeral the two readings agree: the correction only removes the special values. */
  lemma AmountReadingsAgreeOnNumerals(text: string)
    requires ParseDecimal(Strip(text)).Some?
    ensures ParseAmountAsWritten(text) == match ParseAmount(text)
      case None => None
      case Some(a) => Some(Finite(a))
  {
    var t := Strip(text);
    var body := if t != [] && IsSign(t[0]) then t[1..] else t;
    ParseDecimalStart(t);
    var word := Lower(body);
    assert word[0] == body[0];
    assert word != "nan" && word != "inf" && word != "infinity";
  }

  // ---------------------------------------------------------------- 2. the withdrawal row

  /**
   * `create_transaction` against the table as declared: `receiver_id` is
   * NOT NULL, so inserting a row without a receiver fails (`None`) and the
   * table is left as it was.
   */
  method CreateTransactionNotNull(db: Database, sender: Option<int>, receiver: Option<int>, amount: real, kind: Kind, now: int)
    returns (t: Option<Transaction>)
    modifies db
    ensures db.users == old(db.users) && db.promos == old(db.promos)
    ensures receiver.None? ==> t.None? && db.ledger == old(db.ledger)
    ensures receiver.Some? ==>
      && t == Some(Transaction(|old(db.ledger)| + 1, sender, receiver, amount, kind, now))
      && db.ledger == old(db.ledger) + [t.value]
  {
    if receiver.None? {
      return None;
    }
    var row := db.CreateTransaction(sender, receiver, amount, kind, now);
    t := Some(row);
  }

  /**
   * `process_withdraw` as written: the balance update commits in its own
   * session, then the withdrawal row, which has no receiver, is refused by
   * the store, so the handler stops with the account debited and nothing logged.
   */
  method ProcessWithdrawAsWritten(db: Database, uid: int, data: string, now: int) returns (r: Result<nat>)
    requires db.Valid()
    modifies db
    ensures db.promos == old(db.promos) && db.ledger == old(db.ledger)
    ensures match WithdrawAmount(data)
      case None => r == Err(InvalidInput) && db.users == old(db.users)
      case Some(amount) =>
        if uid !in old(db.users) then r == Err(NotFound) && db.users == old(db.users)
        else if old(db.users)[uid].balance < amount then
          r == Err(Insufficient(old(db.users)[uid].balance)) && db.users == old(db.users)
        else
          r == Err(StoreFailure) && db.users == Adjusted(old(db.users), uid, -amount)
  {
    var parsed := WithdrawAmount(data);
    if parsed.None? {
      return Err(InvalidInput);
    }
    var amount := parsed.value;
    var user := db.GetUser(uid);
    if user.None? {
      return Err(NotFound);
    }
    if user.value.balance < amount {
      return Err(Insufficient(user.value.balance));
    }
    var debited := db.UpdateBalance(uid, -amount);
    var t := CreateTransactionNotNull(db, Some(uid), None, amount, Withdraw, now);
    r := Err(StoreFailure);
  }

  /** A debit that leaves no row breaks the reconciliation of every balance with its ledger rows. */
  lemma DebitWithoutRowUnreconciles(users: map<int, User>, l: seq<Transaction>, uid: int, amount: real)
    requires Reconciles(users, l) && uid in users && amount != 0.0
    ensures !Reconciles(Adjusted(users, uid, -amount), l)
  {
    assert Adjusted(users, uid, -amount)[uid].balance != Net(l, uid);
  }

  /** A 50-star account pressing the 25-star button: debited to 25, with nothing in the ledger to account for it. */
  lemma WithdrawalAsWrittenExample(l: seq<Transaction>)
    requires Reconciles(map[1 := NewUser(None, None, 0).(balance := 50.0)], l)
    ensures WithdrawAmount(WithdrawButton(25)) == Some(25.0)
    ensures !Reconciles(Adjusted(map[1 := NewUser(None, None, 0).(balance := 50.0)], 1, -25.0), l)
  {
    WithdrawButtonRoundTrip(25);
    DebitWithoutRowUnreconciles(map[1 := NewUser(None, None, 0).(balance := 50.0)], l, 1, 25.0);
  }
}
