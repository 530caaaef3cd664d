/** The claim on a payment: over all runs, each one is confirmed and credited at most once. */
module ShopPayments {
  import opened Options
  import opened Checkout
  import opened Shop
  import opened ShopWallets

  /** How an event changes the payment rows: not, by a new pending row, or by a new status. */
  datatype Change = Same | New(payment: Payment) | Set(p: nat, status: PaymentStatus)

  ghost predicate Changes(payments: seq<Payment>, payments': seq<Payment>, change: Change) {
    match change
    case Same => payments' == payments
    case New(payment) => payments' == payments + [payment] && payment.status.Pending?
    case Set(p, status) => p < |payments| && payments' == WithStatus(payments, p, status)
  }

  function ChangeOf(s: State, e: Event): Change {
    match e
    case CommitCreate(c) =>
      if c in s.calls && s.calls[c].Creating? && Reserve(s.stock, s.calls[c].lines).Some?
          && s.calls[c].split.gateway > 0 then
        New(Payment(s.calls[c].user, OrderPayment(|s.orders|), s.calls[c].split.gateway, Pending))
      else Same
    case CommitCancel(c) =>
      if c in s.calls && s.calls[c].Cancelling? && s.calls[c].order < |s.orders|
         && Restock(s.stock, s.calls[c].seen.lines).Some? && !s.orders[s.calls[c].order].cancelled
         && s.calls[c].seen.paid
      then
        var paid := FirstPaid(s.payments, s.calls[c].order);
        if paid.None? then Same
        else New(Payment(s.calls[c].seen.user, OrderRefund(s.calls[c].order), paid.value.amount, Pending))
      else Same
    case InitiateCharge(user, amount) => New(Payment(user, WalletCharge, amount, Pending))
    case Claim(c) =>
      if AtStage(s, c, Read) && s.payments[s.calls[c].payment].status.Pending?
          then Set(s.calls[c].payment, Failed) else Same
    case Confirm(c) => if AtStage(s, c, Confirmed) then Set(s.calls[c].payment, Success) else Same
    case _ => Same
  }

  lemma PaymentsChange(s: State, e: Event)
    ensures Changes(s.payments, Apply(s, e).payments, ChangeOf(s, e))
  {
    match e
    case CommitCreate(_) =>
    case CommitCancel(_) =>
    case InitiateCharge(_, _) =>
    case Claim(_) =>
    case Confirm(_) =>
    case _ =>
  }

  // ---------------------------------------------------------------------
  // Claims
  // ---------------------------------------------------------------------

  /** The request won the claim on payment `p` and has not ended. */
  predicate Holds(s: State, c: nat, p: nat) {
    c in s.calls && s.calls[c].Verifying? && !s.calls[c].stage.Read? && s.calls[c].payment == p
  }

  /** A claimed payment is failed for the time being, and one request holds the claim. */
  ghost predicate ClaimsFit(s: State) {
    && (forall c: nat, p: nat | Holds(s, c, p) :: p < |s.payments| && s.payments[p].status.Failed?)
    && (forall c: nat, d: nat, p: nat | Holds(s, c, p) && Holds(s, d, p) :: c == d)
  }

  /** A claim that is held after an event either was before, or was won now on a pending payment. */
  lemma HoldersComeFrom(s: State, e: Event, c: nat, p: nat)
    requires Holds(Apply(s, e), c, p)
    ensures Holds(s, c, p) || (e == Claim(c) && ChangeOf(s, e) == Set(p, Failed) && p < |s.payments|
        && s.payments[p].status.Pending?)
  {
    if Finishes(e) {
      FinishersOnlyEnd(s, e);
    }
  }

  lemma ApplyKeepsClaims(s: State, e: Event)
    requires ClaimsFit(s)
    ensures ClaimsFit(Apply(s, e))
  {
    var s' := Apply(s, e);
    PaymentsChange(s, e);
    forall c: nat, p: nat | Holds(s', c, p)
      ensures p < |s'.payments| && s'.payments[p].status.Failed?
    {
      HoldersComeFrom(s, e, c, p);
      if Holds(s, c, p) {
        ConfirmTakesItsOwn(s, e, c, p);
      }
    }
    forall c: nat, d: nat, p: nat | Holds(s', c, p) && Holds(s', d, p)
      ensures c == d
    {
      HoldersComeFrom(s, e, c, p);
      HoldersComeFrom(s, e, d, p);
    }
  }

  /** A confirmation touches only the payment its own request holds. */
  lemma ConfirmTakesItsOwn(s: State, e: Event, c: nat, p: nat)
    requires ClaimsFit(s) && Holds(s, c, p) && Holds(Apply(s, e), c, p)
    ensures ChangeOf(s, e) != Set(p, Success)
  {
    if e.Confirm? && AtStage(s, e.c, Confirmed) && s.calls[e.c].payment == p {
      assert Holds(s, e.c, p);
    }
  }

  // ---------------------------------------------------------------------
  // Credits
  // ---------------------------------------------------------------------

  /** Number of DEPOSIT rows written for charge `p`. */
  function Deposits(rows: seq<WalletRow>, p: nat): nat {
    if rows == [] then 0
    else
      var last := rows[|rows| - 1];
      Deposits(rows[..|rows| - 1], p) + (if last.kind.Deposit? && last.ref == OfCharge(p) then 1 else 0)
  }

  lemma DepositsAppend(rows: seq<WalletRow>, row: WalletRow, p: nat)
    ensures Deposits(rows + [row], p) == Deposits(rows, p)
        + (if row.kind.Deposit? && row.ref == OfCharge(p) then 1 else 0)
  {
    assert (rows + [row])[..|rows|] == rows;
  }

  predicate Credited(payments: seq<Payment>, p: nat) {
    p < |payments| && payments[p].kind.WalletCharge? && payments[p].status.Success?
  }

  /** A charge is successful exactly when it has exactly one DEPOSIT row, and has none otherwise. */
  ghost predicate CreditsFit(s: State) {
    forall p: nat :: Deposits(s.books.rows, p) == if Credited(s.payments, p) then 1 else 0
  }

  lemma EnteredDeposits(b: Books, entry: Entry, p: nat)
    ensures Deposits(Enter(b, entry).rows, p)
         == Deposits(b.rows, p)
            + (if (entry.Row? || entry.OpenAndRow?) && entry.row.kind.Deposit? && entry.row.ref == OfCharge(p)
               then 1 else 0)
  {
    if entry.Row? || entry.OpenAndRow? {
      DepositsAppend(b.rows, entry.row, p);
    }
  }

  /** Only the confirmation of a charge writes a deposit, for the charge it confirms. */
  lemma DepositsComeFrom(s: State, e: Event, p: nat)
    ensures var entry := EntryOf(s, e);
            (entry.Row? || entry.OpenAndRow?) && entry.row.kind.Deposit? && entry.row.ref == OfCharge(p)
            <==> ChangeOf(s, e) == Set(p, Success) && p < |s.payments| && s.payments[p].kind.WalletCharge?
  {
  }

  lemma ApplyKeepsCredits(s: State, e: Event)
    requires ClaimsFit(s) && CreditsFit(s)
    ensures CreditsFit(Apply(s, e))
  {
    forall p: nat
      ensures Deposits(Apply(s, e).books.rows, p) == if Credited(Apply(s, e).payments, p) then 1 else 0
    {
      BooksAreEntered(s, e);
      EnteredDeposits(s.books, EntryOf(s, e), p);
      DepositsComeFrom(s, e, p);
      PaymentsChange(s, e);
      assert Deposits(s.books.rows, p) == if Credited(s.payments, p) then 1 else 0;
      CreditChanges(s, e, p);
    }
  }

  /** A payment becomes successful only by its own confirmation, and it was not before. */
  lemma CreditChanges(s: State, e: Event, p: nat)
    requires ClaimsFit(s) && Changes(s.payments, Apply(s, e).payments, ChangeOf(s, e))
    ensures var now := ChangeOf(s, e) == Set(p, Success) && p < |s.payments| && s.payments[p].kind.WalletCharge?;
            && (now ==> !Credited(s.payments, p))
            && (Credited(Apply(s, e).payments, p) <==> Credited(s.payments, p) || now)
  {
    if e.Confirm? && AtStage(s, e.c, Confirmed) {
      assert Holds(s, e.c, s.calls[e.c].payment);
    }
  }

  // ---------------------------------------------------------------------
  // What holds in every run
  // ---------------------------------------------------------------------

  lemma {:induction false} PaymentsFit(stock: Stock, wallets: map<nat, int>, es: seq<Event>)
    ensures ClaimsFit(Run(Opening(stock, wallets), es)) && CreditsFit(Run(Opening(stock, wallets), es))
  {
    if es != [] {
      var s := Run(Opening(stock, wallets), es[..|es| - 1]);
      PaymentsFit(stock, wallets, es[..|es| - 1]);
      ApplyKeepsClaims(s, es[|es| - 1]);
      ApplyKeepsCredits(s, es[|es| - 1]);
    }
  }

  /** However many requests verify a charge at once: never two credits, and success means exactly one. */
  lemma {:induction false} ChargeCreditedAtMostOnce(stock: Stock, wallets: map<nat, int>, es: seq<Event>, p: nat)
    requires var s := Run(Opening(stock, wallets), es); p < |s.payments| && s.payments[p].kind.WalletCharge?
    ensures var s := Run(Opening(stock, wallets), es);
            && Deposits(s.books.rows, p) <= 1
            && (s.payments[p].status.Success? <==> Deposits(s.books.rows, p) == 1)
  {
    PaymentsFit(stock, wallets, es);
    var s := Run(Opening(stock, wallets), es);
    assert Deposits(s.books.rows, p) == if Credited(s.payments, p) then 1 else 0;
  }

  /** The life of a payment row: pending, failed, success; it never goes back. */
  function Rank(status: PaymentStatus): nat {
    match status
    case Pending => 0
    case Failed => 1
    case Success => 2
  }

  ghost predicate PaymentsGrow(payments: seq<Payment>, payments': seq<Payment>) {
    && |payments| <= |payments'|
    && forall p | 0 <= p < |payments| ::
         && payments'[p] == payments[p].(status := payments'[p].status)
         && Rank(payments[p].status) <= Rank(payments'[p].status)
  }

  lemma ApplyGrowsPayments(s: State, e: Event)
    requires ClaimsFit(s)
    ensures PaymentsGrow(s.payments, Apply(s, e).payments)
  {
    PaymentsChange(s, e);
    if e.Confirm? && AtStage(s, e.c, Confirmed) {
      assert Holds(s, e.c, s.calls[e.c].payment);
    }
  }

  /** A claimed payment never is pending again, and a successful one stays so, whatever happens next. */
  lemma {:induction false} ClaimsAreNeverUndone(stock: Stock, wallets: map<nat, int>, es: seq<Event>, more: seq<Event>)
    ensures PaymentsGrow(Run(Opening(stock, wallets), es).payments, Run(Opening(stock, wallets), es + more).payments)
  {
    var s := Run(Opening(stock, wallets), es);
    if more == [] {
      assert es + more == es;
    } else {
      var n := |more| - 1;
      ClaimsAreNeverUndone(stock, wallets, es, more[..n]);
      assert (es + more)[..|es + more| - 1] == es + more[..n];
      PaymentsFit(stock, wallets, es + more[..n]);
      ApplyGrowsPayments(Run(Opening(stock, wallets), es + more[..n]), more[n]);
    }
  }

  /** Event number `i` of the run confirms payment `p`. */
  ghost predicate ConfirmsAt(stock: Stock, wallets: map<nat, int>, es: seq<Event>, i: nat, p: nat) {
    i < |es| && es[i].Confirm? && ChangeOf(Run(Opening(stock, wallets), es[..i]), es[i]) == Set(p, Success)
  }

  /** No payment, of a charge or of an order, is confirmed twice in a run. */
  lemma ConfirmedAtMostOnce(stock: Stock, wallets: map<nat, int>, es: seq<Event>, i: nat, j: nat, p: nat)
    requires ConfirmsAt(stock, wallets, es, i, p) && ConfirmsAt(stock, wallets, es, j, p)
    ensures i == j
  {
    if i < j {
      ConfirmedEarlier(stock, wallets, es, i, j, p);
    } else if j < i {
      ConfirmedEarlier(stock, wallets, es, j, i, p);
    }
  }

  lemma ConfirmedEarlier(stock: Stock, wallets: map<nat, int>, es: seq<Event>, i: nat, j: nat, p: nat)
    requires i < j && ConfirmsAt(stock, wallets, es, i, p)
    ensures !ConfirmsAt(stock, wallets, es, j, p)
  {
    if j < |es| {
      var before, after := Run(Opening(stock, wallets), es[..i]), Run(Opening(stock, wallets), es[..j]);
      var next := es[..i + 1];
      assert next[..i] == es[..i] && es[..j] == next + es[i + 1..j];
      PaymentsChange(before, es[i]);
      ClaimsAreNeverUndone(stock, wallets, next, es[i + 1..j]);
      assert p < |after.payments| && after.payments[p].status.Success?;
      PaymentsFit(stock, wallets, es[..j]);
      if es[j].Confirm? && AtStage(after, es[j].c, Confirmed) {
        assert Holds(after, es[j].c, after.calls[es[j].c].payment);
      }
    }
  }
}
