/** Over all runs: every order, every cancellation and every wallet row goes back to what was asked. */
module ShopOrigins {
  import opened Options
  import opened Checkout
  import opened Shop
  import opened ShopStock
  import opened ShopWallets
  import opened ShopPayments
  import opened ShopRefunds
  import opened ShopRequests

  // ---------------------------------------------------------------------
  // Every request under way was begun by its own first step
  // ---------------------------------------------------------------------

  /** The same request, perhaps further on. */
  predicate SameRequest(a: Call, b: Call) {
    || a == b
    || (a.Verifying? && b.Verifying? && a.payment == b.payment)
    || (a.Reviewing? && b.Reviewing? && a.withdrawal == b.withdrawal && a.approve == b.approve)
  }

  lemma CallGoesOn(s: State, e: Event, c: nat)
    requires c in s.calls && c in Apply(s, e).calls
    ensures SameRequest(s.calls[c], Apply(s, e).calls[c])
  {
    if Finishes(e) {
      FinishersOnlyEnd(s, e);
    }
  }

  /** Step `i` of the run begins request `c`. */
  ghost predicate BeginsAt(s: State, es: seq<Event>, i: nat, c: nat) {
    i < |es| && c !in Run(s, es[..i]).calls && c in Apply(Run(s, es[..i]), es[i]).calls
  }

  /** What the request had read when it was begun. */
  ghost function BegunWith(s: State, es: seq<Event>, i: nat, c: nat): Call
    requires BeginsAt(s, es, i, c)
  {
    Apply(Run(s, es[..i]), es[i]).calls[c]
  }

  lemma {:induction false} CallWasBegun(s: State, es: seq<Event>, c: nat) returns (i: nat)
    requires c !in s.calls && c in Run(s, es).calls
    ensures BeginsAt(s, es, i, c) && SameRequest(BegunWith(s, es, i, c), Run(s, es).calls[c])
  {
    var n := |es| - 1;
    var before := Run(s, es[..n]);
    if c in before.calls {
      CallGoesOn(before, es[n], c);
      i := CallWasBegun(s, es[..n], c);
      assert es[..n][..i] == es[..i];
    } else {
      i := n;
    }
  }

  /** Only its own event begins a request of a kind. */
  lemma BegunByItsEvent(s: State, e: Event, c: nat)
    requires c !in s.calls && c in Apply(s, e).calls
    ensures Apply(s, e).calls[c].Creating? ==> e.BeginCreate? && e.c == c && e.lines != []
    ensures Apply(s, e).calls[c].Cancelling? ==> e.BeginCancel? && e.c == c && Apply(s, e).calls[c].order == e.order
  {
    if Finishes(e) {
      FinishersOnlyEnd(s, e);
    }
  }

  // ---------------------------------------------------------------------
  // Orders
  // ---------------------------------------------------------------------

  /** The step that wrote order `o`. */
  lemma {:induction false} OrderWasWritten(s: State, es: seq<Event>, o: nat) returns (j: nat)
    requires |s.orders| <= o < |Run(s, es).orders|
    ensures j < |es| && |Run(s, es[..j]).orders| == o && o < |Apply(Run(s, es[..j]), es[j]).orders|
    ensures SameOrder(Apply(Run(s, es[..j]), es[j]).orders[o], Run(s, es).orders[o])
  {
    var n := |es| - 1;
    var before := Run(s, es[..n]);
    ApplyGrowsOrders(before, es[n]);
    if o < |before.orders| {
      j := OrderWasWritten(s, es[..n], o);
      assert es[..n][..j] == es[..j];
    } else {
      OrdersComeFrom(before, es[n], o);
      j := n;
    }
  }

  /** The order is what was asked for, paid in the parts that its wallet, as it was read, allowed. */
  ghost predicate AsAsked(order: Order, e: Event, seen: Books) {
    && e.BeginCreate? && e.lines != []
    && order.user == e.user && order.lines == e.lines && order.total == e.total && order.pay == e.pay
    && var balance := Balance(seen, e.user);
       && Affordable(e.pay, balance, e.total, e.hasGateway)
       && order.charged.wallet == FromWallet(e.pay, balance, e.total)
       && order.charged.gateway == FromGateway(e.pay, balance, e.total)
       && order.charged.debt == (if e.pay.Mixed? && balance < 0 then -balance else 0)
  }

  /**
   However requests interleave, every order of a run is the one that some request asked for at its
   step `i`, split by the balance read there, and written by that request's transaction at step `j`.
   */
  lemma {:induction false} OrdersAreAsAsked(stock: Stock, wallets: map<nat, int>, es: seq<Event>, o: nat)
    returns (i: nat, j: nat)
    requires o < |Run(Opening(stock, wallets), es).orders|
    ensures i < j < |es| && es[j].CommitCreate? && es[i].BeginCreate? && es[i].c == es[j].c
    ensures |Run(Opening(stock, wallets), es[..j]).orders| == o
    ensures AsAsked(Run(Opening(stock, wallets), es).orders[o], es[i], Run(Opening(stock, wallets), es[..i]).books)
  {
    var s := Opening(stock, wallets);
    j := OrderWasWritten(s, es, o);
    var writing := Run(s, es[..j]);
    OrdersComeFrom(writing, es[j], o);
    var c := es[j].c;
    i := CallWasBegun(s, es[..j], c);
    assert es[..j][..i] == es[..i];
    var begun := Run(s, es[..i]);
    BegunByItsEvent(begun, es[i], c);
    OrderStarts(begun, c, es[i].user, es[i].lines, es[i].total, es[i].pay, es[i].hasGateway);
  }

  // ---------------------------------------------------------------------
  // Cancellations
  // ---------------------------------------------------------------------

  /**
   Every cancelled order of a run was cancelled by the transaction at step `j` of a request that began
   at step `i`, when its caller was allowed to cancel the order as it was then.
   */
  lemma {:induction false} CancellationsWereAllowed(stock: Stock, wallets: map<nat, int>, es: seq<Event>, o: nat)
    returns (i: nat, j: nat)
    requires o < |Run(Opening(stock, wallets), es).orders| && Run(Opening(stock, wallets), es).orders[o].cancelled
    ensures i < j && CancelledAt(stock, wallets, es, j, o)
    ensures es[i].BeginCancel? && es[i].c == es[j].c && es[i].order == o
    ensures var begun := Run(Opening(stock, wallets), es[..i]);
            o < |begun.orders| && MayBeCancelledBy(begun.orders[o], es[i].who)
  {
    var s := Opening(stock, wallets);
    assert es[..|es|] == es;
    j := CancelledWhen(stock, wallets, es, |es|, o);
    var c := es[j].c;
    i := CallWasBegun(s, es[..j], c);
    assert es[..j][..i] == es[..i];
    var begun := Run(s, es[..i]);
    BegunByItsEvent(begun, es[i], c);
    CancellationBeginsIff(begun, c, o, es[i].who);
  }

  // ---------------------------------------------------------------------
  // Wallet rows
  // ---------------------------------------------------------------------

  /** A row belongs to the one whose order, charge or withdrawal it was written for, and is of its amount. */
  ghost predicate Justified(s: State, row: WalletRow) {
    match row.ref
    case OfOrder(o) =>
      && o < |s.orders| && row.user == s.orders[o].user
      && (row.kind == Refund || (row.kind == Purchase && row.amount == s.orders[o].charged.wallet))
    case OfCharge(p) =>
      && p < |s.payments| && row.kind == Deposit
      && s.payments[p] == Payment(row.user, WalletCharge, row.amount, Success)
    case OfWithdrawal(w) =>
      && w < |s.withdrawals| && row.kind == Withdraw
      && row.user == s.withdrawals[w].user && row.amount == s.withdrawals[w].amount
  }

  ghost predicate AllJustified(s: State) {
    forall row <- s.books.rows :: Justified(s, row)
  }

  ghost predicate SameAsked(ws: seq<Withdrawal>, ws': seq<Withdrawal>) {
    |ws| <= |ws'| && forall w | 0 <= w < |ws| :: ws'[w] == ws[w].(status := ws'[w].status)
  }

  lemma WithdrawalsStayAsAsked(s: State, e: Event)
    ensures SameAsked(s.withdrawals, Apply(s, e).withdrawals)
  {
    match e
    case CommitWithdraw(_) =>
    case CommitReview(_) =>
    case _ =>
  }

  lemma JustifiedStays(s: State, e: Event, row: WalletRow)
    requires ClaimsFit(s) && Justified(s, row)
    ensures Justified(Apply(s, e), row)
  {
    ApplyGrowsOrders(s, e);
    ApplyGrowsPayments(s, e);
    WithdrawalsStayAsAsked(s, e);
  }

  lemma NewRowIsJustified(s: State, e: Event, row: WalletRow)
    requires MoneyFits(s) && Snapshots(s) && (EntryOf(s, e) == Row(row) || EntryOf(s, e) == OpenAndRow(row))
    ensures Justified(Apply(s, e), row)
  {
    match e
    case CommitCreate(c) => OrdersComeFrom(s, e, |s.orders|);
    case CommitCancel(c) =>
      RefundSource(s, s.calls[c].order);
      ApplyGrowsOrders(s, e);
    case Confirm(_) =>
    case CommitReview(_) =>
    case CommitReturn(_) => ApplyGrowsOrders(s, e);
    case _ =>
  }

  lemma ApplyKeepsJustified(s: State, e: Event)
    requires ClaimsFit(s) && MoneyFits(s) && Snapshots(s) && AllJustified(s)
    ensures AllJustified(Apply(s, e))
  {
    BooksAreEntered(s, e);
    forall row | row in Apply(s, e).books.rows
      ensures Justified(Apply(s, e), row)
    {
      if row in s.books.rows {
        JustifiedStays(s, e, row);
      } else {
        NewRowIsJustified(s, e, row);
      }
    }
  }

  /**
   In every run each wallet row belongs to the owner of the order, charge or withdrawal it was written
   for; a PURCHASE is of the wallet part, a DEPOSIT of a successful charge's amount, a WITHDRAW of the
   amount asked for.
   */
  lemma {:induction false} RowsAreJustified(stock: Stock, wallets: map<nat, int>, es: seq<Event>)
    ensures AllJustified(Run(Opening(stock, wallets), es))
  {
    if es != [] {
      var s := Run(Opening(stock, wallets), es[..|es| - 1]);
      RowsAreJustified(stock, wallets, es[..|es| - 1]);
      PaymentsFit(stock, wallets, es[..|es| - 1]);
      RunKeepsMoney(stock, wallets, es[..|es| - 1]);
      ApplyKeepsJustified(s, es[|es| - 1]);
    }
  }
}
