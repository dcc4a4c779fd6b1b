/** backend/api/helpers/payment_helper.py: payments of donations. */
module PaymentModel {

  import opened Outcomes
  import opened Text
  import opened Tables
  import opened Models

  const InvalidPaymentStatus: string :=
    "Invalid payment status. Must be one of: ['pending', 'successful', 'failed', 'refunded']"

  function PaymentNotFound(id: Id): string {
    "Payment with payment id " + IntToString(id) + " not found."
  }

  /** `not amount or amount <= 0`: a missing, zero or negative amount. */
  predicate BadAmount(amount: Option<Cents>) { amount.None? || amount.value <= 0 }

  /** `not payment_method`: a missing or empty paymentMethod. */
  predicate BadMethod(paymentMethod: Option<string>) { paymentMethod.None? || paymentMethod.value == "" }

  function CreatePayment(t: Table<Payment>, donationId: Id, amount: Option<Cents>, paymentMethod: Option<string>,
                         status: string, commit: Commit)
    : (r: Outcome<Result<Row<Payment>>, Table<Payment>>)
    ensures r.reply.Err? ==> r.state == t
    ensures BadAmount(amount) ==> r.reply == Err(ValueError("Amount must be greater than 0."))
    ensures !BadAmount(amount) && BadMethod(paymentMethod) ==> r.reply == Err(ValueError("Payment method cannot be empty."))
    ensures !BadAmount(amount) && !BadMethod(paymentMethod) && ParsePaymentStatus(status).None? ==>
      r.reply == Err(ValueError(InvalidPaymentStatus))
    ensures r.reply.Ok? <==>
      && !BadAmount(amount) && !BadMethod(paymentMethod) && ParsePaymentStatus(status).Some? && commit == Committed
      && FitsNumeric82(amount.value) && |paymentMethod.value| <= 50
    ensures r.reply.Ok? ==>
      var pay := Payment(donationId, amount.value, paymentMethod.value, ParsePaymentStatus(status).value);
      && r.reply.value == Row(t.next, pay)
      && r.state == Table(t.rows[t.next := pay], t.next + 1)
      && pay.amount > 0
    ensures Tables.Valid(t) ==> Tables.Valid(r.state)
  {
    if BadAmount(amount) then Outcome(Err(ValueError("Amount must be greater than 0.")), t)
    else if BadMethod(paymentMethod) then Outcome(Err(ValueError("Payment method cannot be empty.")), t)
    else match ParsePaymentStatus(status)
      case None => Outcome(Err(ValueError(InvalidPaymentStatus)), t)
      case Some(st) =>
        var pay := Payment(donationId, amount.value, paymentMethod.value, st);
        if commit == IntegrityViolation then
          Outcome(Err(RuntimeError("Payment creation failed due to database integrity error.")), t)
        else if commit == StoreFailure || !StorablePayment(pay) then
          Outcome(Err(RuntimeError("Could not create payment")), t)
        else
          assert commit == Committed;
          var (t', id) := Insert(t, pay);
          Outcome(Ok(Row(id, pay)), t')
  }

  function UpdatePaymentStatus(t: Table<Payment>, id: Id, status: string, commit: Commit)
    : (r: Outcome<Result<Row<Payment>>, Table<Payment>>)
    ensures r.reply.Err? ==> r.state == t
    ensures id !in t.rows ==> r.reply == Err(ValueError(PaymentNotFound(id)))
    ensures id in t.rows && ParsePaymentStatus(status).None? ==> r.reply == Err(ValueError(InvalidPaymentStatus))
    ensures r.reply.Ok? <==> id in t.rows && ParsePaymentStatus(status).Some? && commit == Committed
    ensures r.reply.Ok? ==>
      var pay := t.rows[id].(status := ParsePaymentStatus(status).value);
      r.reply.value == Row(id, pay) && r.state == Table(t.rows[id := pay], t.next)
    ensures Tables.Valid(t) ==> Tables.Valid(r.state)
  {
    if id !in t.rows then Outcome(Err(ValueError(PaymentNotFound(id))), t)
    else match ParsePaymentStatus(status)
      case None => Outcome(Err(ValueError(InvalidPaymentStatus)), t)
      case Some(st) =>
        if commit != Committed then Outcome(Err(RuntimeError("Could not update payment status")), t)
        else
          var pay := t.rows[id].(status := st);
          Outcome(Ok(Row(id, pay)), Put(t, id, pay))
  }

  function UpdatePaymentMethod(t: Table<Payment>, id: Id, paymentMethod: Option<string>, commit: Commit)
    : (r: Outcome<Result<Row<Payment>>, Table<Payment>>)
    ensures r.reply.Err? ==> r.state == t
    ensures id !in t.rows ==> r.reply == Err(ValueError(PaymentNotFound(id)))
    ensures id in t.rows && BadMethod(paymentMethod) ==> r.reply == Err(ValueError("Payment method cannot be empty."))
    ensures r.reply.Ok? <==> id in t.rows && !BadMethod(paymentMethod) && |paymentMethod.value| <= 50 && commit == Committed
    ensures r.reply.Ok? ==>
      var pay := t.rows[id].(paymentMethod := paymentMethod.value);
      r.reply.value == Row(id, pay) && r.state == Table(t.rows[id := pay], t.next)
    ensures Tables.Valid(t) ==> Tables.Valid(r.state)
  {
    if id !in t.rows then Outcome(Err(ValueError(PaymentNotFound(id))), t)
    else if BadMethod(paymentMethod) then Outcome(Err(ValueError("Payment method cannot be empty.")), t)
    else
      var pay := t.rows[id].(paymentMethod := paymentMethod.value);
      if commit != Committed || |paymentMethod.value| > 50 then
        Outcome(Err(RuntimeError("Could not update payment method")), t)
      else Outcome(Ok(Row(id, pay)), Put(t, id, pay))
  }

  function DeletePayment(t: Table<Payment>, id: Id, commit: Commit): (r: Outcome<Result<string>, Table<Payment>>)
    ensures r.reply.Err? ==> r.state == t
    ensures id !in t.rows ==> r.reply == Err(ValueError(PaymentNotFound(id)))
    ensures r.reply.Ok? <==> id in t.rows && commit == Committed
    ensures r.reply.Ok? ==>
      && r.reply.value == "Payment with id " + IntToString(id) + " deleted successfully."
      && r.state.next == t.next && r.state.rows.Keys == t.rows.Keys - {id}
      && (forall k :: k in r.state.rows ==> r.state.rows[k] == t.rows[k])
  {
    if id !in t.rows then Outcome(Err(ValueError(PaymentNotFound(id))), t)
    else if commit != Committed then Outcome(Err(RuntimeError("Could not delete payment")), t)
    else Outcome(Ok("Payment with id " + IntToString(id) + " deleted successfully."), Remove(t, id))
  }

  // ---------------------------------------------------------------------
  // Lookups and filters

  function ViewPaymentByPaymentId(t: Table<Payment>, id: Id): (r: Result<Row<Payment>>)
    ensures r.Ok? <==> id in t.rows
    ensures r.Ok? ==> r.value == Row(id, t.rows[id])
    ensures r.Err? ==> r.error == ValueError("Could not find payment with payment id: " + IntToString(id))
  {
    if id in t.rows then Ok(Row(id, t.rows[id]))
    else Err(ValueError("Could not find payment with payment id: " + IntToString(id)))
  }

  function ViewAllPayments(t: Table<Payment>): (r: Result<seq<Row<Payment>>>)
    ensures r.Ok? ==> r.value != [] && forall i :: 0 <= i < |r.value| ==> r.value[i].id in t.rows && t.rows[r.value[i].id] == r.value[i].rec
    ensures Tables.Valid(t) ==> (r.Err? <==> t.rows == map[])
    ensures Tables.Valid(t) && r.Ok? ==> forall id :: id in t.rows ==> Row(id, t.rows[id]) in r.value
    ensures r.Err? ==> r.error == ValueError("No payments found.")
  {
    var all := Select(t, All<Payment>);
    if all == [] then Err(ValueError("No payments found."))
    else assert all[0].id in t.rows; Ok(all)
  }

  function ViewAllPaymentsByDonation(t: Table<Payment>, donationId: Id): (r: Result<seq<Row<Payment>>>)
    ensures r.Ok? ==> r.value != [] && forall i :: 0 <= i < |r.value| ==>
      r.value[i].id in t.rows && t.rows[r.value[i].id] == r.value[i].rec && r.value[i].rec.donationId == donationId
    ensures Tables.Valid(t) ==> (r.Err? <==> forall id :: id in t.rows ==> t.rows[id].donationId != donationId)
    ensures Tables.Valid(t) && r.Ok? ==> forall id :: id in t.rows && t.rows[id].donationId == donationId ==> Row(id, t.rows[id]) in r.value
    ensures r.Err? ==> r.error == ValueError("No payments found for donation id: " + IntToString(donationId))
  {
    var found := Select(t, (p: Payment) => p.donationId == donationId);
    if found == [] then Err(ValueError("No payments found for donation id: " + IntToString(donationId)))
    else assert found[0].id in t.rows; Ok(found)
  }

  function FilterPaymentsByStatus(t: Table<Payment>, status: string): (r: Result<seq<Row<Payment>>>)
    ensures ParsePaymentStatus(status).None? ==> r == Err(ValueError(InvalidPaymentStatus))
    ensures r.Ok? ==> ParsePaymentStatus(status).Some? && r.value != [] && forall i :: 0 <= i < |r.value| ==>
      r.value[i].id in t.rows && t.rows[r.value[i].id] == r.value[i].rec && Some(r.value[i].rec.status) == ParsePaymentStatus(status)
    ensures Tables.Valid(t) && ParsePaymentStatus(status).Some? ==>
      var st := ParsePaymentStatus(status).value;
      && (r.Ok? <==> exists id :: id in t.rows && t.rows[id].status == st)
      && (r.Ok? ==> forall id :: id in t.rows && t.rows[id].status == st ==> Row(id, t.rows[id]) in r.value)
      && (r.Err? ==> r.error == ValueError("No payments found with status: " + PaymentStatusValue(st)))
  {
    match ParsePaymentStatus(status)
    case None => Err(ValueError(InvalidPaymentStatus))
    case Some(st) =>
      var found := Select(t, (p: Payment) => p.status == st);
      if found == [] then Err(ValueError("No payments found with status: " + PaymentStatusValue(st)))
      else assert found[0].id in t.rows; Ok(found)
  }

  /** `func.lower(payment_method) == paymentMethod.lower()`: equality, not containment. */
  predicate MethodMatches(p: Payment, paymentMethod: string) { Lower(p.paymentMethod) == Lower(paymentMethod) }

  function FilterPaymentsByMethod(t: Table<Payment>, paymentMethod: string): (r: Result<seq<Row<Payment>>>)
    ensures r.Ok? ==> r.value != [] && forall i :: 0 <= i < |r.value| ==>
      r.value[i].id in t.rows && t.rows[r.value[i].id] == r.value[i].rec && MethodMatches(r.value[i].rec, paymentMethod)
    ensures Tables.Valid(t) ==> (r.Err? <==> forall id :: id in t.rows ==> !MethodMatches(t.rows[id], paymentMethod))
    ensures Tables.Valid(t) && r.Ok? ==> forall id :: id in t.rows && MethodMatches(t.rows[id], paymentMethod) ==> Row(id, t.rows[id]) in r.value
    ensures r.Err? ==> r.error == ValueError("No payments found using method: " + paymentMethod)
  {
    var found := Select(t, (p: Payment) => MethodMatches(p, paymentMethod));
    if found == [] then Err(ValueError("No payments found using method: " + paymentMethod))
    else assert found[0].id in t.rows; Ok(found)
  }

  /** The method filter is exact up to letter case, not a substring search:
      a query that occurs inside a stored method but is shorter than it does
      not find that payment. */
  lemma MethodFilterIsNotSubstring(t: Table<Payment>, id: Id, query: string)
    requires Tables.Valid(t) && id in t.rows
    requires Contains(t.rows[id].paymentMethod, query) && |query| < |t.rows[id].paymentMethod|
    ensures FilterPaymentsByMethod(t, query).Ok? ==> Row(id, t.rows[id]) !in FilterPaymentsByMethod(t, query).value
  {
    assert |Lower(query)| != |Lower(t.rows[id].paymentMethod)|;
  }

  /** A query that differs from a stored method only in letter case finds it. */
  lemma MethodFilterIgnoresCase(t: Table<Payment>, id: Id, query: string)
    requires Tables.Valid(t) && id in t.rows
    requires |query| == |t.rows[id].paymentMethod|
    requires forall i :: 0 <= i < |query| ==> LowerChar(query[i]) == LowerChar(t.rows[id].paymentMethod[i])
    ensures FilterPaymentsByMethod(t, query).Ok?
    ensures Row(id, t.rows[id]) in FilterPaymentsByMethod(t, query).value
  {
    SameLower(query, t.rows[id].paymentMethod);
  }

  lemma SameLower(a: string, b: string)
    requires |a| == |b|
    requires forall i :: 0 <= i < |a| ==> LowerChar(a[i]) == LowerChar(b[i])
    ensures Lower(a) == Lower(b)
  {
    assert forall i :: 0 <= i < |a| ==> Lower(a)[i] == Lower(b)[i];
  }

  /** A query shorter or longer than every stored method finds nothing. */
  lemma OtherLengthsNotFound(t: Table<Payment>, paymentMethod: string)
    requires Tables.Valid(t)
    requires forall id :: id in t.rows ==> |t.rows[id].paymentMethod| != |paymentMethod|
    ensures FilterPaymentsByMethod(t, paymentMethod) == Err(ValueError("No payments found using method: " + paymentMethod))
  {
    forall id | id in t.rows ensures !MethodMatches(t.rows[id], paymentMethod) {
      assert |Lower(t.rows[id].paymentMethod)| != |Lower(paymentMethod)|;
    }
  }

  // ---------------------------------------------------------------------
  // Totals

  /** The sum of the amounts of a list of payments. */
  function SumAmounts(rows: seq<Row<Payment>>): int {
    if rows == [] then 0 else SumAmounts(rows[..|rows| - 1]) + rows[|rows| - 1].rec.amount
  }

  /** `SUM(amount)` over the rows with keys in [1, n). */
  function AmountBelow(rows: map<Id, Payment>, n: Id): int
    decreases n
  {
    if n <= 1 then 0 else AmountBelow(rows, n - 1) + (if n - 1 in rows then rows[n - 1].amount else 0)
  }

  /** `count(payment_id)`, `or 0`: the number of stored payments. */
  function GetTotalPayments(t: Table<Payment>): (r: nat)
    ensures Tables.Valid(t) ==> r == |t.rows|
    ensures t.rows == map[] ==> r == 0
  {
    assert Tables.Valid(t) ==> |Select(t, All<Payment>)| == |t.rows| by {
      if Tables.Valid(t) { SelectAllCount(t, All<Payment>); }
    }
    assert t.rows == map[] ==> Select(t, All<Payment>) == [] by {
      if Select(t, All<Payment>) != [] { assert Select(t, All<Payment>)[0].id in t.rows; }
    }
    |Select(t, All<Payment>)|
  }

  /** `sum(amount)`, `or 0`, in exact cents: the sum of the amounts of the
      listed payments, 0 for an empty table. */
  function GetTotalPaymentAmount(t: Table<Payment>): (r: int)
    ensures r == SumAmounts(Select(t, All<Payment>))
    ensures t.rows == map[] ==> r == 0
  {
    AmountBelowIsListSum(t.rows, t.next);
    assert t.rows == map[] ==> Select(t, All<Payment>) == [] by {
      if Select(t, All<Payment>) != [] { assert Select(t, All<Payment>)[0].id in t.rows; }
    }
    AmountBelow(t.rows, t.next)
  }

  lemma SumAppend(a: seq<Row<Payment>>, b: seq<Row<Payment>>)
    requires |b| <= 1
    ensures SumAmounts(a + b) == SumAmounts(a) + (if b == [] then 0 else b[0].rec.amount)
  {
    if b == [] { assert a + b == a; } else { assert (a + b)[..|a + b| - 1] == a; }
  }

  lemma {:induction false} AmountBelowIsListSum(rows: map<Id, Payment>, n: Id)
    ensures AmountBelow(rows, n) == SumAmounts(SelectBelow(rows, n, All<Payment>))
    decreases n
  {
    if n > 1 {
      AmountBelowIsListSum(rows, n - 1);
      SumAppend(SelectBelow(rows, n - 1, All<Payment>), if n - 1 in rows then [Row(n - 1, rows[n - 1])] else []);
    }
  }

  lemma {:induction false} AmountBelowIgnoresAbove(rows: map<Id, Payment>, n: Id, k: Id, x: Payment)
    requires k >= n
    ensures AmountBelow(rows[k := x], n) == AmountBelow(rows, n)
    decreases n
  {
    if n > 1 { AmountBelowIgnoresAbove(rows, n - 1, k, x); }
  }

  lemma {:induction false} AmountBelowRemove(rows: map<Id, Payment>, n: Id, id: Id)
    ensures AmountBelow(rows - {id}, n) == AmountBelow(rows, n) - (if id in rows && 1 <= id < n then rows[id].amount else 0)
    decreases n
  {
    if n > 1 { AmountBelowRemove(rows, n - 1, id); }
  }

  lemma {:induction false} AmountBelowPut(rows: map<Id, Payment>, n: Id, id: Id, x: Payment)
    requires id in rows && x.amount == rows[id].amount
    ensures AmountBelow(rows[id := x], n) == AmountBelow(rows, n)
    decreases n
  {
    if n > 1 { AmountBelowPut(rows, n - 1, id, x); }
  }

  /** A created payment adds one to the count and its amount to the total. */
  lemma CreateAddsToTotals(t: Table<Payment>, donationId: Id, amount: Option<Cents>, paymentMethod: Option<string>, status: string)
    requires Tables.Valid(t)
    requires CreatePayment(t, donationId, amount, paymentMethod, status, Committed).reply.Ok?
    ensures var t' := CreatePayment(t, donationId, amount, paymentMethod, status, Committed).state;
      GetTotalPayments(t') == GetTotalPayments(t) + 1 && GetTotalPaymentAmount(t') == GetTotalPaymentAmount(t) + amount.value
  {
    var t' := CreatePayment(t, donationId, amount, paymentMethod, status, Committed).state;
    AmountBelowIgnoresAbove(t.rows, t.next, t.next, t'.rows[t.next]);
  }

  /** A deleted payment takes one from the count and its amount from the total. */
  lemma DeleteSubtractsFromTotals(t: Table<Payment>, id: Id)
    requires Tables.Valid(t) && id in t.rows
    ensures GetTotalPaymentAmount(DeletePayment(t, id, Committed).state) == GetTotalPaymentAmount(t) - t.rows[id].amount
    ensures GetTotalPayments(DeletePayment(t, id, Committed).state) == GetTotalPayments(t) - 1
  {
    AmountBelowRemove(t.rows, t.next, id);
    var t' := DeletePayment(t, id, Committed).state;
    assert t'.rows == t.rows - {id};
  }

  /** Status and method updates leave both totals as they were. */
  lemma UpdatesKeepTotals(t: Table<Payment>, id: Id, status: string, paymentMethod: Option<string>, commit: Commit)
    requires Tables.Valid(t)
    ensures var t' := UpdatePaymentStatus(t, id, status, commit).state;
      GetTotalPaymentAmount(t') == GetTotalPaymentAmount(t) && GetTotalPayments(t') == GetTotalPayments(t)
    ensures var t' := UpdatePaymentMethod(t, id, paymentMethod, commit).state;
      GetTotalPaymentAmount(t') == GetTotalPaymentAmount(t) && GetTotalPayments(t') == GetTotalPayments(t)
  {
    var t1 := UpdatePaymentStatus(t, id, status, commit).state;
    var t2 := UpdatePaymentMethod(t, id, paymentMethod, commit).state;
    if id in t.rows {
      if t1 != t { AmountBelowPut(t.rows, t.next, id, t1.rows[id]); }
      if t2 != t { AmountBelowPut(t.rows, t.next, id, t2.rows[id]); }
    }
  }
}

/** The payment helpers as methods on the shared database. */
module PaymentHelper {

  import opened Outcomes
  import opened Text
  import opened Tables
  import opened Models
  import opened Database
  import M = PaymentModel

  method CreatePayment(db: Db, donationId: Id, amount: Option<Cents>, paymentMethod: Option<string>, status: string, commit: Commit)
    returns (r: Result<Row<Payment>>)
    requires db.Valid()
    modifies db`payments
    ensures db.Valid()
    ensures Outcome(r, db.payments) == M.CreatePayment(old(db.payments), donationId, amount, paymentMethod, status, commit)
  {
    if amount.None? || amount.value <= 0 {
      return Err(ValueError("Amount must be greater than 0."));
    }
    if paymentMethod.None? || paymentMethod.value == "" {
      return Err(ValueError("Payment method cannot be empty."));
    }
    var status' := ParsePaymentStatus(status);
    if status'.None? {
      return Err(ValueError(M.InvalidPaymentStatus));
    }
    var payment := Payment(donationId, amount.value, paymentMethod.value, status'.value);
    if commit == IntegrityViolation {
      return Err(RuntimeError("Payment creation failed due to database integrity error."));
    }
    if commit == StoreFailure || !StorablePayment(payment) {
      return Err(RuntimeError("Could not create payment"));
    }
    var id := db.payments.next;
    db.payments := Table(db.payments.rows[id := payment], id + 1);
    r := Ok(Row(id, payment));
  }

  method UpdatePaymentStatus(db: Db, id: Id, status: string, commit: Commit) returns (r: Result<Row<Payment>>)
    requires db.Valid()
    modifies db`payments
    ensures db.Valid()
    ensures Outcome(r, db.payments) == M.UpdatePaymentStatus(old(db.payments), id, status, commit)
  {
    if id !in db.payments.rows {
      return Err(ValueError(M.PaymentNotFound(id)));
    }
    var status' := ParsePaymentStatus(status);
    if status'.None? {
      return Err(ValueError(M.InvalidPaymentStatus));
    }
    if commit != Committed {
      return Err(RuntimeError("Could not update payment status"));
    }
    var payment := db.payments.rows[id].(status := status'.value);
    db.payments := Put(db.payments, id, payment);
    r := Ok(Row(id, payment));
  }

  method UpdatePaymentMethod(db: Db, id: Id, paymentMethod: Option<string>, commit: Commit) returns (r: Result<Row<Payment>>)
    requires db.Valid()
    modifies db`payments
    ensures db.Valid()
    ensures Outcome(r, db.payments) == M.UpdatePaymentMethod(old(db.payments), id, paymentMethod, commit)
  {
    if id !in db.payments.rows {
      return Err(ValueError(M.PaymentNotFound(id)));
    }
    if paymentMethod.None? || paymentMethod.value == "" {
      return Err(ValueError("Payment method cannot be empty."));
    }
    var payment := db.payments.rows[id].(paymentMethod := paymentMethod.value);
    if commit != Committed || |paymentMethod.value| > 50 {
      return Err(RuntimeError("Could not update payment method"));
    }
    db.payments := Put(db.payments, id, payment);
    r := Ok(Row(id, payment));
  }

  method DeletePayment(db: Db, id: Id, commit: Commit) returns (r: Result<string>)
    requires db.Valid()
    modifies db`payments
    ensures db.Valid()
    ensures Outcome(r, db.payments) == M.DeletePayment(old(db.payments), id, commit)
  {
    if id !in db.payments.rows {
      return Err(ValueError(M.PaymentNotFound(id)));
    }
    if commit != Committed {
      return Err(RuntimeError("Could not delete payment"));
    }
    db.payments := Remove(db.payments, id);
    r := Ok("Payment with id " + IntToString(id) + " deleted successfully.");
  }
}
