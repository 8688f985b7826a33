/**
 * cashier.js: a cash desk with a pin-protected session, a balance that
 * starts at 10000 and a log of deposits and withdrawals.
 */
module Cashier {
  import opened Wrappers
  import opened Seqs

  const InitialBalance: real := 10000.0
  const Pin: string := "1234"

  /** The entry's `type`: `'deposit'` is `Credit`, `'withdraw'` is `Debit`. */
  datatype Kind = Credit | Debit

  /** One entry of `transactions`; `day` is the calendar day of its `timestamp`. */
  datatype Transaction = Transaction(kind: Kind, amount: real, day: string, user: string)

  /** The errors the desk throws. */
  datatype Failure = SessionInactive | NotPositive | InsufficientFunds

  /** The result of `generateDailyReport`. */
  datatype Report = Report(
    date: string,
    totalTransactions: nat,
    totalDeposits: real,
    totalWithdrawals: real,
    netChange: real,
    finalBalance: real)

  /** What one entry does to the balance. */
  function Effect(t: Transaction): real
  {
    if t.kind == Credit then t.amount else -t.amount
  }

  /** The balance change a log stands for: its deposits minus its withdrawals. */
  function Net(log: seq<Transaction>): real
  {
    if log == [] then 0.0 else Net(log[..|log| - 1]) + Effect(log[|log| - 1])
  }

  /** `log.filter(t => t.type === kind).reduce((sum, t) => sum + t.amount, 0)`. */
  function Total(log: seq<Transaction>, kind: Kind): real
  {
    if log == [] then 0.0
    else Total(log[..|log| - 1], kind) + (if log[|log| - 1].kind == kind then log[|log| - 1].amount else 0.0)
  }

  lemma {:induction false} NetAppend(log: seq<Transaction>, t: Transaction)
    ensures Net(log + [t]) == Net(log) + Effect(t)
    ensures Total(log + [t], Credit) == Total(log, Credit) + (if t.kind == Credit then t.amount else 0.0)
    ensures Total(log + [t], Debit) == Total(log, Debit) + (if t.kind == Debit then t.amount else 0.0)
  {
    assert (log + [t])[..|log|] == log;
  }

  /** The net change of a log is its total deposits minus its total withdrawals. */
  lemma {:induction false} NetIsDepositsMinusWithdrawals(log: seq<Transaction>)
    ensures Net(log) == Total(log, Credit) - Total(log, Debit)
    decreases |log|
  {
    if log != [] {
      NetIsDepositsMinusWithdrawals(log[..|log| - 1]);
    }
  }

  /** The net change of two logs one after the other adds up. */
  lemma {:induction false} NetConcat(a: seq<Transaction>, b: seq<Transaction>)
    ensures Net(a + b) == Net(a) + Net(b)
    decreases |b|
  {
    if b == [] {
      assert a + b == a;
    } else {
      var init := b[..|b| - 1];
      assert a + b == (a + init) + [b[|b| - 1]];
      NetAppend(a + init, b[|b| - 1]);
      NetConcat(a, init);
    }
  }

  /** The transactions of one day, in order. */
  function DayLog(log: seq<Transaction>, day: string): (r: seq<Transaction>)
    ensures forall i :: 0 <= i < |r| ==> r[i].day == day && r[i] in log
  {
    Filter(log, (t: Transaction) => t.day == day)
  }

  class CashierSystem {
    var balance: real
    var transactions: seq<Transaction>
    var sessionActive: bool
    var currentUser: Option<string>

    /**
     * The balance is the opening balance plus the log's net effect and never
     * negative; every entry has a positive amount; a user is set exactly
     * while a session is active.
     */
    ghost predicate Valid()
      reads this
    {
      && balance == InitialBalance + Net(transactions)
      && balance >= 0.0
      && (forall i :: 0 <= i < |transactions| ==> transactions[i].amount > 0.0)
      && (sessionActive <==> currentUser.Some?)
    }

    constructor()
      ensures Valid()
      ensures balance == InitialBalance && transactions == []
      ensures !sessionActive && currentUser == None
    {
      balance := InitialBalance;
      transactions := [];
      sessionActive := false;
      currentUser := None;
    }

    /** `login`: only the pin `1234` opens a session. */
    method Login(userId: string, pin: string) returns (ok: bool)
      requires Valid()
      modifies this
      ensures Valid()
      ensures ok <==> pin == Pin
      ensures ok ==> sessionActive && currentUser == Some(userId)
      ensures !ok ==> sessionActive == old(sessionActive) && currentUser == old(currentUser)
      ensures balance == old(balance) && transactions == old(transactions)
    {
      if pin == Pin {
        currentUser := Some(userId);
        sessionActive := true;
        return true;
      }
      return false;
    }

    /** `logout`. */
    method Logout()
      requires Valid()
      modifies this
      ensures Valid()
      ensures !sessionActive && currentUser == None
      ensures balance == old(balance) && transactions == old(transactions)
    {
      sessionActive := false;
      currentUser := None;
    }

    /** `checkBalance`. */
    method CheckBalance() returns (r: Result<real, Failure>)
      requires Valid()
      ensures r.Ok? <==> sessionActive
      ensures r.Ok? ==> r.value == balance && r.value == InitialBalance + Net(transactions)
      ensures r.Err? ==> r.error == SessionInactive
    {
      if !sessionActive {
        return Err(SessionInactive);
      }
      return Ok(balance);
    }

    /** `deposit(amount)`, stamped with the current day. */
    method Deposit(amount: real, day: string) returns (r: Result<real, Failure>)
      requires Valid()
      modifies this
      ensures Valid()
      ensures r.Err? <==> !old(sessionActive) || amount <= 0.0
      ensures r.Err? ==> r.error == (if !old(sessionActive) then SessionInactive else NotPositive)
      ensures r.Err? ==> balance == old(balance) && transactions == old(transactions)
      ensures r.Ok? ==> (balance == old(balance) + amount && r.value == balance
        && transactions == old(transactions) + [Transaction(Credit, amount, day, old(currentUser).value)])
      ensures sessionActive == old(sessionActive) && currentUser == old(currentUser)
    {
      if !sessionActive {
        return Err(SessionInactive);
      }
      if amount <= 0.0 {
        return Err(NotPositive);
      }
      var t := Transaction(Credit, amount, day, currentUser.value);
      NetAppend(transactions, t);
      balance := balance + amount;
      transactions := transactions + [t];
      return Ok(balance);
    }

    /** `withdraw(amount)`, stamped with the current day. */
    method Withdraw(amount: real, day: string) returns (r: Result<real, Failure>)
      requires Valid()
      modifies this
      ensures Valid()
      ensures r.Err? <==> !old(sessionActive) || amount <= 0.0 || amount > old(balance)
      ensures r.Err? ==> r.error == (if !old(sessionActive) then SessionInactive
        else if amount <= 0.0 then NotPositive else InsufficientFunds)
      ensures r.Err? ==> balance == old(balance) && transactions == old(transactions)
      ensures r.Ok? ==> (balance == old(balance) - amount && r.value == balance
        && transactions == old(transactions) + [Transaction(Debit, amount, day, old(currentUser).value)])
      ensures sessionActive == old(sessionActive) && currentUser == old(currentUser)
    {
      if !sessionActive {
        return Err(SessionInactive);
      }
      if amount <= 0.0 {
        return Err(NotPositive);
      }
      if amount > balance {
        return Err(InsufficientFunds);
      }
      var t := Transaction(Debit, amount, day, currentUser.value);
      NetAppend(transactions, t);
      balance := balance - amount;
      transactions := transactions + [t];
      return Ok(balance);
    }

    /** `getTransactionHistory`: the last ten entries, oldest first. */
    method TransactionHistory() returns (h: seq<Transaction>)
      ensures |h| == if |transactions| < 10 then |transactions| else 10
      ensures h == transactions[|transactions| - |h|..]
    {
      h := LastN(transactions, 10);
    }

    /** `generateDailyReport` for the day `today`. */
    function DailyReport(today: string): (r: Report)
      reads this
      ensures r.totalTransactions == |DayLog(transactions, today)|
      ensures r.netChange == Net(DayLog(transactions, today))
      ensures r.netChange == r.totalDeposits - r.totalWithdrawals
      ensures r.finalBalance == balance && r.date == today
    {
      var log := DayLog(transactions, today);
      NetIsDepositsMinusWithdrawals(log);
      var deposits := Total(log, Credit);
      var withdrawals := Total(log, Debit);
      Report(today, |log|, deposits, withdrawals, deposits - withdrawals, balance)
    }
  }

  /** A day's report counts only that day's entries, and all of that day's entries. */
  lemma {:induction false} DayLogExact(log: seq<Transaction>, day: string)
    ensures forall t :: t in DayLog(log, day) <==> t in log && t.day == day
  {
    FilterMembers(log, (t: Transaction) => t.day == day);
  }

  /** When every entry is of one day, that day's net change is the whole balance change. */
  lemma {:induction false} SingleDayNet(log: seq<Transaction>, day: string)
    requires forall i :: 0 <= i < |log| ==> log[i].day == day
    ensures Net(DayLog(log, day)) == Net(log)
  {
    FilterAll(log, (t: Transaction) => t.day == day);
  }
}
