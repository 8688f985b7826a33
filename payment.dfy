/**
 * payment.js: payments are created `pending` with a fee taken from their
 * method and become `completed` when processed, which records one
 * transaction. Amounts are exact reals here, not JavaScript doubles.
 */
module Payment {
  import opened Wrappers
  import opened Seqs
  import opened Strings

  const MaxAmount: real := 1000000.0
  const MaxDescription: nat := 500

  /** An entry of `paymentMethods`: its key, its display fields, its fee rate and whether it is enabled. */
  datatype MethodInfo = MethodInfo(key: string, name: string, description: string, fee: real, enabled: bool)

  /** The methods the system starts with, in insertion order. */
  const InitialMethods: seq<MethodInfo> := [
    MethodInfo("credit_card", "Tarjeta de Crédito", "Pago con tarjeta de crédito", 0.025, true),
    MethodInfo("debit_card", "Tarjeta de Débito", "Pago con tarjeta de débito", 0.015, true),
    MethodInfo("bank_transfer", "Transferencia Bancaria", "Transferencia bancaria directa", 0.005, true),
    MethodInfo("cash", "Efectivo", "Pago en efectivo", 0.0, true)
  ]

  datatype Status = Pending | Completed | Failed

  datatype PaymentRecord = PaymentRecord(
    id: string,
    userId: string,
    amount: real,
    fee: real,
    totalAmount: real,
    payMethod: string,
    description: string,
    status: Status,
    createdAt: int,
    processedAt: Option<int>,
    transactionId: Option<string>)

  datatype Transaction = Transaction(id: string, paymentId: string, userId: string, amount: real, payMethod: string, status: string, createdAt: int)

  /** The errors `PaymentSystem` throws. */
  datatype PaymentError =
    | MissingUser | NotPositive | TooLarge | UnknownMethod | MethodDisabled | DescriptionTooLong
    | MissingPaymentId | PaymentNotFound | AlreadyProcessed(status: Status)

  datatype Stats = Stats(total: nat, completed: nat, pending: nat, failed: nat, totalAmount: real, totalFees: real)

  /** An element of `getAvailablePaymentMethods`. */
  datatype Available = Available(id: string, name: string, description: string, fee: real)

  // -------------------------------------------------------------- lookups

  function MethodIndex(methods: seq<MethodInfo>, key: string): (i: nat)
    ensures i <= |methods|
    ensures i < |methods| ==> methods[i].key == key
    ensures forall j :: 0 <= j < i ==> methods[j].key != key
  {
    FindIndex(methods, (m: MethodInfo) => m.key == key)
  }

  /** The position of the payment stored under `id` (`payments.get`), or `|payments|`. */
  function PaymentIndex(payments: seq<PaymentRecord>, id: string): (i: nat)
    ensures i <= |payments|
    ensures i < |payments| ==> payments[i].id == id
    ensures forall j :: 0 <= j < i ==> payments[j].id != id
  {
    FindIndex(payments, (p: PaymentRecord) => p.id == id)
  }

  predicate DistinctIds(payments: seq<PaymentRecord>)
  {
    forall i, j :: 0 <= i < j < |payments| ==> payments[i].id != payments[j].id
  }

  /** `payments.set(payment.id, payment)`: replace the payment stored under that id, or append. */
  function PutPayment(payments: seq<PaymentRecord>, p: PaymentRecord): (r: seq<PaymentRecord>)
    ensures DistinctIds(payments) ==> DistinctIds(r)
    ensures PaymentIndex(payments, p.id) == |payments| ==> r == payments + [p]
  {
    var i := PaymentIndex(payments, p.id);
    if i < |payments| then payments[i := p]
    else
      assert forall j :: 0 <= j < |payments| ==> (payments + [p])[j] == payments[j];
      payments + [p]
  }

  // ---------------------------------------------------------- the checks

  /** The first check `createPayment` fails, in the source's order; `None` when all pass. */
  function CreateError(methods: seq<MethodInfo>, userId: string, amount: real, payMethod: string, description: string): (e: Option<PaymentError>)
    ensures e.None? ==> userId != "" && 0.0 < amount <= MaxAmount && |description| <= MaxDescription
    ensures e.None? ==> MethodIndex(methods, payMethod) < |methods| && methods[MethodIndex(methods, payMethod)].enabled
  {
    if userId == "" then Some(MissingUser)
    else if amount <= 0.0 then Some(NotPositive)
    else if amount > MaxAmount then Some(TooLarge)
    else if MethodIndex(methods, payMethod) == |methods| then Some(UnknownMethod)
    else if !methods[MethodIndex(methods, payMethod)].enabled then Some(MethodDisabled)
    else if |description| > MaxDescription then Some(DescriptionTooLong)
    else None
  }

  /** The payment `createPayment` stores when the checks pass. */
  function NewPayment(methods: seq<MethodInfo>, userId: string, amount: real, payMethod: string, description: string, id: string, now: int): PaymentRecord
    requires MethodIndex(methods, payMethod) < |methods|
  {
    var fee := amount * methods[MethodIndex(methods, payMethod)].fee;
    PaymentRecord(id, userId, amount, fee, amount + fee, payMethod, description, Pending, now, None, None)
  }

  /** A payment is accepted exactly when the user is given, the amount is in (0, 1000000], the method exists and is enabled, and the description is short enough. */
  lemma {:induction false} CreateErrorIff(methods: seq<MethodInfo>, userId: string, amount: real, payMethod: string, description: string)
    ensures CreateError(methods, userId, amount, payMethod, description).None? <==>
      userId != "" && 0.0 < amount <= MaxAmount && |description| <= MaxDescription
      && exists i :: (0 <= i < |methods| && methods[i].key == payMethod && methods[i].enabled
        && forall j :: 0 <= j < i ==> methods[j].key != payMethod)
  {
    var k := MethodIndex(methods, payMethod);
    if exists i :: 0 <= i < |methods| && methods[i].key == payMethod && methods[i].enabled
        && forall j :: 0 <= j < i ==> methods[j].key != payMethod {
      var i :| 0 <= i < |methods| && methods[i].key == payMethod && methods[i].enabled
        && forall j :: 0 <= j < i ==> methods[j].key != payMethod;
      assert k == i;
    }
  }

  /** The limit is inclusive: one million is accepted and anything above it is not. */
  lemma {:induction false} AmountBound(userId: string, payMethod: string)
    requires userId != "" && payMethod in ["credit_card", "debit_card", "bank_transfer", "cash"]
    ensures CreateError(InitialMethods, userId, MaxAmount, payMethod, "").None?
    ensures forall a :: a > MaxAmount ==> CreateError(InitialMethods, userId, a, payMethod, "") == Some(TooLarge)
  {
    assert InitialMethods[0].key == "credit_card" && InitialMethods[1].key == "debit_card";
    assert InitialMethods[2].key == "bank_transfer" && InitialMethods[3].key == "cash";
  }

  /** The fee is the amount times the rate of its method, the total is amount plus fee; cash costs nothing. */
  lemma {:induction false} FeeOfPayment(userId: string, amount: real, description: string, id: string, now: int)
    ensures var p := NewPayment(InitialMethods, userId, amount, "cash", description, id, now);
      p.fee == 0.0 && p.totalAmount == amount && p.status == Pending
    ensures var p := NewPayment(InitialMethods, userId, amount, "credit_card", description, id, now);
      p.fee == amount * 0.025 && p.totalAmount == amount + p.fee
  {
    assert MethodIndex(InitialMethods, "cash") == 3 by {
      assert InitialMethods[3].key == "cash";
    }
    assert MethodIndex(InitialMethods, "credit_card") == 0 by {
      assert InitialMethods[0].key == "credit_card";
    }
  }

  /** A payment that is not pending cannot be processed; processing succeeds exactly for a pending one. */
  function ProcessError(payments: seq<PaymentRecord>, paymentId: string): Option<PaymentError>
  {
    if paymentId == "" then Some(MissingPaymentId)
    else if PaymentIndex(payments, paymentId) == |payments| then Some(PaymentNotFound)
    else if payments[PaymentIndex(payments, paymentId)].status != Pending then
      Some(AlreadyProcessed(payments[PaymentIndex(payments, paymentId)].status))
    else None
  }

  /** The processed form of a pending payment. */
  function Completion(p: PaymentRecord, transactionId: string, now: int): (r: PaymentRecord)
    ensures r.id == p.id && r.status == Completed && r.transactionId == Some(transactionId)
  {
    p.(status := Completed, processedAt := Some(now), transactionId := Some(transactionId))
  }

  /** Processing the same payment a second time fails: it is no longer pending. */
  lemma {:induction false} ProcessTwiceFails(payments: seq<PaymentRecord>, paymentId: string, transactionId: string, now: int)
    requires ProcessError(payments, paymentId).None?
    ensures var i := PaymentIndex(payments, paymentId);
      var after := payments[i := Completion(payments[i], transactionId, now)];
      ProcessError(after, paymentId) == Some(AlreadyProcessed(Completed))
  {
    var i := PaymentIndex(payments, paymentId);
    var after := payments[i := Completion(payments[i], transactionId, now)];
    forall j | 0 <= j < i ensures after[j].id != paymentId {
      assert after[j] == payments[j];
    }
    assert after[i].id == paymentId;
    assert PaymentIndex(after, paymentId) == i;
  }

  // ------------------------------------------------------------ the stats

  predicate IsCompleted(p: PaymentRecord) { p.status == Completed }
  predicate IsPending(p: PaymentRecord) { p.status == Pending }
  predicate IsFailed(p: PaymentRecord) { p.status == Failed }

  /** `.filter(p => p.status === 'completed').reduce((sum, p) => sum + p.totalAmount, 0)`. */
  function CompletedTotal(ps: seq<PaymentRecord>): real
  {
    if ps == [] then 0.0 else (if IsCompleted(ps[0]) then ps[0].totalAmount else 0.0) + CompletedTotal(ps[1..])
  }

  /** The same over `p.fee`. */
  function CompletedFees(ps: seq<PaymentRecord>): real
  {
    if ps == [] then 0.0 else (if IsCompleted(ps[0]) then ps[0].fee else 0.0) + CompletedFees(ps[1..])
  }

  /** `getPaymentStats` over the stored payments. */
  function PaymentStats(payments: seq<PaymentRecord>): Stats
  {
    Stats(|payments|, Count(payments, IsCompleted), Count(payments, IsPending), Count(payments, IsFailed),
          CompletedTotal(payments), CompletedFees(payments))
  }

  /** Every payment is completed, pending or failed: the three counts add up to the total. */
  lemma {:induction false} StatsPartition(payments: seq<PaymentRecord>)
    ensures var s := PaymentStats(payments); s.completed + s.pending + s.failed == s.total
    decreases |payments|
  {
    if payments != [] {
      StatsPartition(payments[1..]);
    }
  }

  /** Processing a pending payment moves it from the pending to the completed count and adds its total and fee to the sums. */
  lemma {:induction false} ProcessUpdatesStats(payments: seq<PaymentRecord>, i: nat, transactionId: string, now: int)
    requires i < |payments| && payments[i].status == Pending
    ensures var before, after := PaymentStats(payments), PaymentStats(payments[i := Completion(payments[i], transactionId, now)]);
      && after.total == before.total
      && after.completed == before.completed + 1 && after.pending == before.pending - 1 && after.failed == before.failed
      && after.totalAmount == before.totalAmount + payments[i].totalAmount
      && after.totalFees == before.totalFees + payments[i].fee
  {
    var x := Completion(payments[i], transactionId, now);
    CountUpdate(payments, i, x, IsCompleted);
    CountUpdate(payments, i, x, IsPending);
    CountUpdate(payments, i, x, IsFailed);
    CompletionSums(payments, i, x);
  }

  /** Completing one pending payment adds its total and its fee to the sums. */
  lemma {:induction false} CompletionSums(payments: seq<PaymentRecord>, i: nat, x: PaymentRecord)
    requires i < |payments| && payments[i].status == Pending && x.status == Completed
    ensures CompletedTotal(payments[i := x]) == CompletedTotal(payments) + x.totalAmount
    ensures CompletedFees(payments[i := x]) == CompletedFees(payments) + x.fee
    decreases i
  {
    var t := payments[i := x];
    if i == 0 {
      assert t[1..] == payments[1..];
    } else {
      assert t[1..] == payments[1..][i - 1 := x];
      CompletionSums(payments[1..], i - 1, x);
    }
  }

  // ----------------------------------------------------- a user's payments

  /** Inserting into a newest-first list: after every strictly newer payment, before the rest. */
  function InsertByDate(x: PaymentRecord, s: seq<PaymentRecord>): (r: seq<PaymentRecord>)
    ensures multiset(r) == multiset(s) + multiset{x}
    decreases |s|
  {
    if s == [] || s[0].createdAt <= x.createdAt then [x] + s
    else
      assert s == [s[0]] + s[1..];
      [s[0]] + InsertByDate(x, s[1..])
  }

  /** `.sort((a, b) => b.createdAt - a.createdAt)`, as a stable insertion sort. */
  function SortByDate(s: seq<PaymentRecord>): (r: seq<PaymentRecord>)
    ensures multiset(r) == multiset(s)
    decreases |s|
  {
    if s == [] then []
    else
      assert s == [s[0]] + s[1..];
      InsertByDate(s[0], SortByDate(s[1..]))
  }

  predicate NewestFirst(s: seq<PaymentRecord>)
  {
    forall i, j :: 0 <= i < j < |s| ==> s[i].createdAt >= s[j].createdAt
  }

  /** Every payment of `s` was created no later than `bound`. */
  predicate NotAfter(s: seq<PaymentRecord>, bound: int)
  {
    forall k :: 0 <= k < |s| ==> s[k].createdAt <= bound
  }

  lemma {:induction false} ConsNewestFirst(h: PaymentRecord, t: seq<PaymentRecord>)
    requires NewestFirst(t) && NotAfter(t, h.createdAt)
    ensures NewestFirst([h] + t)
  {
    var r := [h] + t;
    forall i, j | 0 <= i < j < |r| ensures r[i].createdAt >= r[j].createdAt {
      assert r[j] == t[j - 1];
      if i > 0 {
        assert r[i] == t[i - 1];
      }
    }
  }

  lemma {:induction false} TailNewestFirst(s: seq<PaymentRecord>)
    requires |s| > 0 && NewestFirst(s)
    ensures NewestFirst(s[1..]) && NotAfter(s[1..], s[0].createdAt)
  {
    var t := s[1..];
    forall k | 0 <= k < |t| ensures t[k].createdAt <= s[0].createdAt {
      assert t[k] == s[k + 1];
    }
    forall i, j | 0 <= i < j < |t| ensures t[i].createdAt >= t[j].createdAt {
      assert t[i] == s[i + 1] && t[j] == s[j + 1];
    }
  }

  lemma {:induction false} InsertNotAfter(x: PaymentRecord, s: seq<PaymentRecord>, bound: int)
    requires NotAfter(s, bound) && x.createdAt <= bound
    ensures NotAfter(InsertByDate(x, s), bound)
    decreases |s|
  {
    if s == [] || s[0].createdAt <= x.createdAt {
      var r := [x] + s;
      forall k | 0 <= k < |r| ensures r[k].createdAt <= bound {
        if k > 0 {
          assert r[k] == s[k - 1];
        }
      }
    } else {
      var t := s[1..];
      assert NotAfter(t, bound) by {
        forall k | 0 <= k < |t| ensures t[k].createdAt <= bound {
          assert t[k] == s[k + 1];
        }
      }
      InsertNotAfter(x, t, bound);
      var u := InsertByDate(x, t);
      var r := [s[0]] + u;
      forall k | 0 <= k < |r| ensures r[k].createdAt <= bound {
        if k > 0 {
          assert r[k] == u[k - 1];
        }
      }
    }
  }

  lemma {:induction false} InsertNewestFirst(x: PaymentRecord, s: seq<PaymentRecord>)
    requires NewestFirst(s)
    ensures NewestFirst(InsertByDate(x, s))
    decreases |s|
  {
    if s == [] {
      ConsNewestFirst(x, s);
    } else if s[0].createdAt <= x.createdAt {
      TailNewestFirst(s);
      assert NotAfter(s, x.createdAt) by {
        forall k | 0 <= k < |s| ensures s[k].createdAt <= x.createdAt {
          if k > 0 {
            assert s[k] == s[1..][k - 1];
          }
        }
      }
      ConsNewestFirst(x, s);
    } else {
      TailNewestFirst(s);
      InsertNewestFirst(x, s[1..]);
      InsertNotAfter(x, s[1..], s[0].createdAt);
      ConsNewestFirst(s[0], InsertByDate(x, s[1..]));
    }
  }

  lemma {:induction false} SortNewestFirst(s: seq<PaymentRecord>)
    ensures NewestFirst(SortByDate(s))
    decreases |s|
  {
    if s != [] {
      SortNewestFirst(s[1..]);
      InsertNewestFirst(s[0], SortByDate(s[1..]));
    }
  }

  /** `getUserPayments`: that user's payments, newest first. */
  function UserPayments(payments: seq<PaymentRecord>, userId: string): (r: Result<seq<PaymentRecord>, PaymentError>)
    ensures r.Err? <==> userId == ""
    ensures r.Ok? ==> multiset(r.value) == multiset(Filter(payments, (p: PaymentRecord) => p.userId == userId))
  {
    if userId == "" then Err(MissingUser)
    else Ok(SortByDate(Filter(payments, (p: PaymentRecord) => p.userId == userId)))
  }

  /** The listing holds exactly the user's payments, and newest first. */
  lemma {:induction false} UserPaymentsExact(payments: seq<PaymentRecord>, userId: string)
    requires userId != ""
    ensures var r := UserPayments(payments, userId).value;
      NewestFirst(r) && forall p :: p in r <==> p in payments && p.userId == userId
  {
    var f := Filter(payments, (p: PaymentRecord) => p.userId == userId);
    FilterMembers(payments, (p: PaymentRecord) => p.userId == userId);
    SortNewestFirst(f);
    var r := SortByDate(f);
    forall p ensures p in r <==> p in f {
      assert p in r <==> p in multiset(r);
      assert p in f <==> p in multiset(f);
    }
  }

  // -------------------------------------------------------------- methods

  /** `name.toLowerCase().replace(/\s+/g, '_')`, for names whose upper-case letters are ASCII. */
  function Slug(name: string): string
  {
    UnderscoreWhitespace(ToLowerAscii(name))
  }

  /** `replace(/\s+/g, '_')`: each run of white space becomes one `_`. */
  function UnderscoreWhitespace(s: string): (r: string)
    ensures NoWhitespace(r)
    ensures NoWhitespace(s) ==> r == s
    decreases |s|
  {
    if s == [] then []
    else if IsJsWhitespace(s[0]) then
      var rest := SkipWhitespace(s[1..]);
      "_" + UnderscoreWhitespace(rest)
    else [s[0]] + UnderscoreWhitespace(s[1..])
  }

  function SkipWhitespace(s: string): (r: string)
    ensures |r| <= |s| && (r == [] || !IsJsWhitespace(r[0]))
    decreases |s|
  {
    if s != [] && IsJsWhitespace(s[0]) then SkipWhitespace(s[1..]) else s
  }

  function AvailableOf(m: MethodInfo): Available
  {
    Available(Slug(m.name), m.name, m.description, m.fee)
  }

  /** `getAvailablePaymentMethods`: the enabled methods, in order. */
  function AvailableMethods(methods: seq<MethodInfo>): (r: seq<Available>)
    ensures |r| == Count(methods, (m: MethodInfo) => m.enabled)
  {
    var on := Filter(methods, (m: MethodInfo) => m.enabled);
    seq(|on|, i requires 0 <= i < |on| => AvailableOf(on[i]))
  }

  /** Only enabled methods are listed, and every enabled method is. */
  lemma {:induction false} AvailableAreEnabled(methods: seq<MethodInfo>)
    ensures forall a :: a in AvailableMethods(methods) <==>
      exists m :: m in methods && m.enabled && a == AvailableOf(m)
  {
    forall a ensures a in AvailableMethods(methods) <==> exists m :: m in methods && m.enabled && a == AvailableOf(m) {
      if a in AvailableMethods(methods) {
        ListedIsEnabled(methods, a);
      }
      if exists m :: m in methods && m.enabled && a == AvailableOf(m) {
        var m :| m in methods && m.enabled && a == AvailableOf(m);
        EnabledIsListed(methods, m);
      }
    }
  }

  lemma {:induction false} ListedIsEnabled(methods: seq<MethodInfo>, a: Available)
    requires a in AvailableMethods(methods)
    ensures exists m :: m in methods && m.enabled && a == AvailableOf(m)
  {
    var on := Filter(methods, (m: MethodInfo) => m.enabled);
    var r := AvailableMethods(methods);
    var i :| 0 <= i < |r| && r[i] == a;
    assert on[i] in methods && on[i].enabled;
    assert a == AvailableOf(on[i]);
  }

  lemma {:induction false} EnabledIsListed(methods: seq<MethodInfo>, m: MethodInfo)
    requires m in methods && m.enabled
    ensures AvailableOf(m) in AvailableMethods(methods)
  {
    var on := Filter(methods, (m: MethodInfo) => m.enabled);
    var k :| 0 <= k < |methods| && methods[k] == m;
    assert m in on;
    var i :| 0 <= i < |on| && on[i] == m;
    assert AvailableMethods(methods)[i] == AvailableOf(m);
  }

  class PaymentSystem {
    var payments: seq<PaymentRecord>
    var paymentMethods: seq<MethodInfo>
    var transactions: map<string, Transaction>

    /**
     * Ids are distinct; a pending payment has no processing time and no
     * transaction, a completed one has both; every total is amount plus fee.
     */
    ghost predicate Valid()
      reads this
    {
      && DistinctIds(payments)
      && (forall i :: 0 <= i < |payments| ==> payments[i].totalAmount == payments[i].amount + payments[i].fee)
      && (forall i :: 0 <= i < |payments| && payments[i].status == Pending ==>
            payments[i].processedAt.None? && payments[i].transactionId.None?)
      && (forall i :: 0 <= i < |payments| && payments[i].status == Completed ==>
            payments[i].processedAt.Some? && payments[i].transactionId.Some?)
    }

    constructor()
      ensures Valid()
      ensures payments == [] && paymentMethods == InitialMethods && transactions == map[]
    {
      payments := [];
      paymentMethods := InitialMethods;
      transactions := map[];
    }

    /** `createPayment`, with the generated id and the clock as parameters; an omitted description is empty. */
    method CreatePayment(userId: string, amount: real, payMethod: string, description: string := "", id: string, now: int)
      returns (r: Result<PaymentRecord, PaymentError>)
      requires Valid()
      modifies this
      ensures Valid()
      ensures r.Err? <==> CreateError(paymentMethods, userId, amount, payMethod, description).Some?
      ensures r.Err? ==> (r.error == CreateError(paymentMethods, userId, amount, payMethod, description).value
        && payments == old(payments))
      ensures r.Ok? ==> (MethodIndex(paymentMethods, payMethod) < |paymentMethods|
        && r.value == NewPayment(paymentMethods, userId, amount, payMethod, description, id, now)
        && payments == PutPayment(old(payments), r.value))
      ensures paymentMethods == old(paymentMethods) && transactions == old(transactions)
    {
      if userId == "" {
        return Err(MissingUser);
      }
      if amount <= 0.0 {
        return Err(NotPositive);
      }
      if amount > MaxAmount {
        return Err(TooLarge);
      }
      var k := MethodIndex(paymentMethods, payMethod);
      if k == |paymentMethods| {
        return Err(UnknownMethod);
      }
      if !paymentMethods[k].enabled {
        return Err(MethodDisabled);
      }
      if |description| > MaxDescription {
        return Err(DescriptionTooLong);
      }
      var fee := amount * paymentMethods[k].fee;
      var payment := PaymentRecord(id, userId, amount, fee, amount + fee, payMethod, description, Pending, now, None, None);
      var i := PaymentIndex(payments, id);
      if i < |payments| {
        payments := payments[i := payment];
      } else {
        payments := payments + [payment];
      }
      return Ok(payment);
    }

    /** `processPayment`, with the generated transaction id and the clock as parameters. */
    method ProcessPayment(paymentId: string, transactionId: string, now: int)
      returns (r: Result<(PaymentRecord, Transaction), PaymentError>)
      requires Valid()
      modifies this
      ensures Valid()
      ensures r.Err? <==> ProcessError(old(payments), paymentId).Some?
      ensures r.Err? ==> (r.error == ProcessError(old(payments), paymentId).value
        && payments == old(payments) && transactions == old(transactions))
      ensures r.Ok? ==> var i := PaymentIndex(old(payments), paymentId);
        && i < |old(payments)| && old(payments)[i].status == Pending
        && r.value.0 == Completion(old(payments)[i], transactionId, now)
        && payments == old(payments)[i := r.value.0]
        && r.value.1 == Transaction(transactionId, paymentId, r.value.0.userId, r.value.0.totalAmount, r.value.0.payMethod, "success", now)
        && transactions == old(transactions)[transactionId := r.value.1]
      ensures paymentMethods == old(paymentMethods)
    {
      if paymentId == "" {
        return Err(MissingPaymentId);
      }
      var i := PaymentIndex(payments, paymentId);
      if i == |payments| {
        return Err(PaymentNotFound);
      }
      var payment := payments[i];
      if payment.status != Pending {
        return Err(AlreadyProcessed(payment.status));
      }
      payment := payment.(status := Completed, processedAt := Some(now), transactionId := Some(transactionId));
      payments := payments[i := payment];
      var transaction := Transaction(transactionId, payment.id, payment.userId, payment.totalAmount, payment.payMethod, "success", now);
      transactions := transactions[transactionId := transaction];
      return Ok((payment, transaction));
    }

    function GetUserPayments(userId: string): (r: Result<seq<PaymentRecord>, PaymentError>)
      reads this
      ensures r.Err? <==> userId == ""
      ensures r.Ok? ==> NewestFirst(r.value) && forall p :: p in r.value <==> p in payments && p.userId == userId
    {
      if userId == "" then Err(MissingUser)
      else
        UserPaymentsExact(payments, userId);
        UserPayments(payments, userId)
    }

    function GetPaymentStats(): (s: Stats)
      reads this
      ensures s.completed + s.pending + s.failed == s.total
    {
      StatsPartition(payments);
      PaymentStats(payments)
    }

    function GetAvailablePaymentMethods(): (r: seq<Available>)
      reads this
      ensures forall a :: a in r <==> exists m :: m in paymentMethods && m.enabled && a == AvailableOf(m)
    {
      AvailableAreEnabled(paymentMethods);
      AvailableMethods(paymentMethods)
    }
  }
}
