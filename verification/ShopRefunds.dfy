/** What a cancellation gives back, over all runs of the shop, compared with what was paid. */
module ShopRefunds {
  import opened Options
  import opened Checkout
  import opened Shop
  import opened ShopStock
  import opened ShopWallets
  import opened ShopPayments

  // ---------------------------------------------------------------------
  // The money of an order
  // ---------------------------------------------------------------------

  /** Both parts add up to the total, plus what an overdrawn wallet put on the gateway bill. */
  predicate PartsAddUp(pay: PaymentMethod, total: nat, wallet: nat, gateway: nat, debt: nat) {
    if pay.FreightCollect? then wallet == 0 && gateway == 0 && debt == 0
    else wallet + gateway == total + debt && (debt > 0 ==> pay.Mixed?)
  }

  function Part(x: int): nat { if x > 0 then x else 0 }

  ghost predicate CreationFits(call: Call) {
    call.Creating? ==>
      && PartsAddUp(call.pay, call.total, Part(call.split.wallet), Part(call.split.gateway), call.debt)
      && call.split.gateway >= 0
  }

  ghost predicate ChargeFits(order: Order) {
    && PartsAddUp(order.pay, order.total, order.charged.wallet, order.charged.gateway, order.charged.debt)
    && (order.charged.payment.Some? <==> order.charged.gateway > 0)
  }

  predicate IsPurchase(row: WalletRow, o: nat) {
    row.kind.Purchase? && row.ref == OfOrder(o)
  }

  /** All PURCHASE rows of an order. */
  function Purchases(rows: seq<WalletRow>, o: nat): seq<WalletRow> {
    if rows == [] then []
    else Purchases(rows[..|rows| - 1], o) + (if IsPurchase(rows[|rows| - 1], o) then [rows[|rows| - 1]] else [])
  }

  /** The PURCHASE rows of an order: one of its wallet part to its owner, or none. */
  ghost predicate PurchaseFits(s: State, o: nat) {
    Purchases(s.books.rows, o) ==
      if o < |s.orders| && s.orders[o].charged.wallet > 0
      then [WalletRow(s.orders[o].user, Purchase, s.orders[o].charged.wallet, OfOrder(o))]
      else []
  }

  /** Nothing is left to pay: it was prepaid, without a gateway part or with that payment successful. */
  predicate FullyPaid(s: State, order: Order) {
    && !order.pay.FreightCollect?
    && (order.charged.gateway == 0
        || (order.charged.payment.Some? && order.charged.payment.value < |s.payments|
            && s.payments[order.charged.payment.value].status.Success?))
  }

  /** The payment row of an order is the one it names; the order is marked paid exactly when nothing is left to pay. */
  ghost predicate PaymentFits(s: State, o: nat)
    requires o < |s.orders|
  {
    var order := s.orders[o];
    && (order.paid <==> FullyPaid(s, order))
    && (order.charged.payment.Some? ==>
          var p := order.charged.payment.value;
          p < |s.payments| && s.payments[p].kind == OrderPayment(o) && s.payments[p].amount == order.charged.gateway)
  }

  ghost predicate NamedByOrder(s: State, p: nat)
    requires p < |s.payments|
  {
    s.payments[p].kind.OrderPayment? ==>
      s.payments[p].kind.order < |s.orders| && s.orders[s.payments[p].kind.order].charged.payment == Some(p)
  }

  ghost predicate MoneyFits(s: State) {
    && (forall c | c in s.calls :: CreationFits(s.calls[c]))
    && (forall o | 0 <= o < |s.orders| :: ChargeFits(s.orders[o]) && PaymentFits(s, o))
    && (forall o: nat :: PurchaseFits(s, o))
    && (forall p | 0 <= p < |s.payments| :: NamedByOrder(s, p))
  }

  // ---------------------------------------------------------------------
  // The invariant is kept
  // ---------------------------------------------------------------------

  lemma CreationsComeFrom(s: State, e: Event, c: nat)
    requires c in Apply(s, e).calls && Apply(s, e).calls[c].Creating?
    requires c in s.calls ==> CreationFits(s.calls[c])
    ensures CreationFits(Apply(s, e).calls[c])
  {
    if Finishes(e) {
      FinishersOnlyEnd(s, e);
    } else if e.BeginCreate? && e.c == c && c !in s.calls {
      CreationsAddUp(s, c, e.user, e.lines, e.total, e.pay, e.hasGateway);
    }
  }

  lemma CreationsAddUp(s: State, c: nat, user: nat, lines: seq<Line>, total: nat, pay: PaymentMethod, hasGateway: bool)
    requires c !in s.calls && c in StartCreate(s, c, user, lines, total, pay, hasGateway).calls
    ensures CreationFits(StartCreate(s, c, user, lines, total, pay, hasGateway).calls[c])
  {
    if !pay.FreightCollect? {
      var s' := if UsesWallet(pay) then s.(books := WithWallet(s.books, user)) else s;
      SplitCovers(pay, if UsesWallet(pay) then s'.books.wallets[user] else 0, total, hasGateway);
    }
  }

  /** How an event changes the orders: a new one, or new statuses and payment flags. */
  lemma OrdersComeFrom(s: State, e: Event, o: nat)
    requires |s.orders| <= o < |Apply(s, e).orders|
    ensures e.CommitCreate? && e.c in s.calls && s.calls[e.c].Creating? && o == |s.orders|
    ensures Apply(s, e).orders[o] == NewOrder(|s.payments|, s.calls[e.c])
    ensures ChangeOf(s, e) == if s.calls[e.c].split.gateway > 0
                              then New(Payment(
                                s.calls[e.c].user, OrderPayment(o), s.calls[e.c].split.gateway, Pending))
                              else Same
    ensures EntryOf(s, e) == if s.calls[e.c].split.wallet > 0
                             then Row(WalletRow(
                               s.calls[e.c].user, Purchase, s.calls[e.c].split.wallet, OfOrder(o)))
                             else Nothing
  {
    if !MovesGoods(e) {
      OthersLeaveGoods(s, e);
    }
  }

  /** An order becomes paid only by the confirmation of its payment. */
  lemma PaidComesFrom(s: State, e: Event, o: nat)
    requires o < |s.orders| && o < |Apply(s, e).orders| && Apply(s, e).orders[o].paid && !s.orders[o].paid
    ensures exists p: nat ::
              ChangeOf(s, e) == Set(p, Success) && p < |s.payments| && s.payments[p].kind == OrderPayment(o)
  {
    if !MovesGoods(e) {
      OthersLeaveGoods(s, e);
    } else if e.Confirm? {
      assert ChangeOf(s, e) == Set(s.calls[e.c].payment, Success);
    }
  }

  /** Purchase rows and order payments are only written for an order made in the same step. */
  lemma BookedWithItsOrder(s: State, e: Event)
    ensures var entry := EntryOf(s, e);
            (entry.Row? || entry.OpenAndRow?) && entry.row.kind.Purchase? ==>
              entry.Row? && entry.row.ref == OfOrder(|s.orders|) && |Apply(s, e).orders| == |s.orders| + 1
    ensures var change := ChangeOf(s, e);
            change.New? && change.payment.kind.OrderPayment? ==>
              change.payment.kind.order == |s.orders| && |Apply(s, e).orders| == |s.orders| + 1
  {
  }

  lemma EnteredPurchases(b: Books, entry: Entry, o: nat)
    ensures Purchases(Enter(b, entry).rows, o) ==
              Purchases(b.rows, o)
              + (if (entry.Row? || entry.OpenAndRow?) && IsPurchase(entry.row, o) then [entry.row] else [])
  {
    if entry.Row? || entry.OpenAndRow? {
      assert (b.rows + [entry.row])[..|b.rows|] == b.rows;
    }
  }

  /** The row a refund is taken from is the first of them. */
  lemma {:induction false} FirstPurchaseIs(rows: seq<WalletRow>, o: nat)
    ensures FirstPurchase(rows, o) == if Purchases(rows, o) == [] then None else Some(Purchases(rows, o)[0])
  {
    if rows != [] {
      FirstPurchaseIs(rows[..|rows| - 1], o);
    }
  }

  lemma PurchaseStaysFit(s: State, e: Event, o: nat)
    requires MoneyFits(s)
    ensures PurchaseFits(Apply(s, e), o)
  {
    var s' := Apply(s, e);
    BooksAreEntered(s, e);
    EnteredPurchases(s.books, EntryOf(s, e), o);
    BookedWithItsOrder(s, e);
    ApplyGrowsOrders(s, e);
    assert PurchaseFits(s, o);
    if |s.orders| <= o < |s'.orders| {
      OrdersComeFrom(s, e, o);
    } else if |s'.orders| > |s.orders| {
      OrdersComeFrom(s, e, |s.orders|);
    }
  }

  lemma OldOrderStaysFit(s: State, e: Event, o: nat)
    requires MoneyFits(s) && ClaimsFit(s) && o < |s.orders| && o < |Apply(s, e).orders|
    ensures ChargeFits(Apply(s, e).orders[o]) && PaymentFits(Apply(s, e), o)
  {
    assert ChargeFits(s.orders[o]) && PaymentFits(s, o);
    ApplyGrowsOrders(s, e);
    ApplyGrowsPayments(s, e);
    if Apply(s, e).orders[o].paid && !s.orders[o].paid {
      PaidComesFrom(s, e, o);
      var p: nat :| ChangeOf(s, e) == Set(p, Success) && p < |s.payments| && s.payments[p].kind == OrderPayment(o);
      PaymentsChange(s, e);
      assert NamedByOrder(s, p);
    }
  }

  lemma NewOrderFits(s: State, e: Event, o: nat)
    requires MoneyFits(s) && |s.orders| <= o < |Apply(s, e).orders|
    ensures ChargeFits(Apply(s, e).orders[o]) && PaymentFits(Apply(s, e), o)
  {
    OrdersComeFrom(s, e, o);
    PaymentsChange(s, e);
    assert CreationFits(s.calls[e.c]);
  }

  lemma PaymentStaysNamed(s: State, e: Event, p: nat)
    requires MoneyFits(s) && ClaimsFit(s) && p < |Apply(s, e).payments|
    ensures NamedByOrder(Apply(s, e), p)
  {
    ApplyGrowsOrders(s, e);
    PaymentsChange(s, e);
    BookedWithItsOrder(s, e);
    if p < |s.payments| {
      ApplyGrowsPayments(s, e);
      assert NamedByOrder(s, p);
    } else if Apply(s, e).payments[p].kind.OrderPayment? {
      OrdersComeFrom(s, e, |s.orders|);
    }
  }

  lemma ApplyKeepsMoney(s: State, e: Event)
    requires MoneyFits(s) && ClaimsFit(s)
    ensures MoneyFits(Apply(s, e))
  {
    var s' := Apply(s, e);
    forall c | c in s'.calls
      ensures CreationFits(s'.calls[c])
    {
      if s'.calls[c].Creating? {
        CreationsComeFrom(s, e, c);
      }
    }
    forall o | 0 <= o < |s'.orders|
      ensures ChargeFits(s'.orders[o]) && PaymentFits(s', o)
    {
      if o < |s.orders| {
        OldOrderStaysFit(s, e, o);
      } else {
        NewOrderFits(s, e, o);
      }
    }
    forall o: nat
      ensures PurchaseFits(s', o)
    {
      PurchaseStaysFit(s, e, o);
    }
    forall p | 0 <= p < |s'.payments|
      ensures NamedByOrder(s', p)
    {
      PaymentStaysNamed(s, e, p);
    }
  }

  lemma {:induction false} RunKeepsMoney(stock: Stock, wallets: map<nat, int>, es: seq<Event>)
    ensures MoneyFits(Run(Opening(stock, wallets), es)) && Snapshots(Run(Opening(stock, wallets), es))
  {
    if es != [] {
      var s := Run(Opening(stock, wallets), es[..|es| - 1]);
      var e := es[|es| - 1];
      RunKeepsMoney(stock, wallets, es[..|es| - 1]);
      PaymentsFit(stock, wallets, es[..|es| - 1]);
      ApplyKeepsMoney(s, e);
      ApplyKeepsSnapshots(s, e);
    }
  }

  /**
   In every run an order is marked paid if and only if it is prepaid and nothing is left for the
   gateway: it has no gateway part, or the payment it names is successful.
   */
  lemma {:induction false} PaidIff(stock: Stock, wallets: map<nat, int>, es: seq<Event>, o: nat)
    requires o < |Run(Opening(stock, wallets), es).orders|
    ensures var s := Run(Opening(stock, wallets), es); var order := s.orders[o];
            && (order.charged.payment.Some? <==> order.charged.gateway > 0)
            && (order.charged.payment.Some? ==> order.charged.payment.value < |s.payments|)
            && (order.paid <==>
                  && !order.pay.FreightCollect?
                  && (order.charged.gateway == 0 || s.payments[order.charged.payment.value].status.Success?))
  {
    RunKeepsMoney(stock, wallets, es);
    var s := Run(Opening(stock, wallets), es);
    assert ChargeFits(s.orders[o]) && PaymentFits(s, o);
  }

  /** In every run an order starts out waiting for payment if it has a gateway part and in processing if not. */
  lemma {:induction false} StartsAsPaidFor(stock: Stock, wallets: map<nat, int>, es: seq<Event>, e: Event)
    requires var s := Run(Opening(stock, wallets), es); |Apply(s, e).orders| > |s.orders|
    ensures var s := Run(Opening(stock, wallets), es); var order := Apply(s, e).orders[|s.orders|];
            && order.status == (if order.charged.gateway > 0 then PendingPayment else Processing)
            && (order.paid <==> order.charged.gateway == 0 && !order.pay.FreightCollect?)
            && !order.cancelled
  {
    RunKeepsMoney(stock, wallets, es);
    var s := Run(Opening(stock, wallets), es);
    OrdersComeFrom(s, e, |s.orders|);
    assert CreationFits(s.calls[e.c]);
  }

  // ---------------------------------------------------------------------
  // What a cancellation gives back
  // ---------------------------------------------------------------------

  lemma {:induction false} FirstPaidIs(payments: seq<Payment>, o: nat, q: Option<nat>)
    requires forall p | 0 <= p < |payments| && payments[p].kind == OrderPayment(o) :: q == Some(p)
    ensures FirstPaid(payments, o) ==
              if q.Some? && q.value < |payments| && payments[q.value].kind == OrderPayment(o)
                  && payments[q.value].status.Success?
              then Some(payments[q.value]) else None
  {
    if payments != [] {
      FirstPaidIs(payments[..|payments| - 1], o, q);
    }
  }

  /** What the step from `s` to `s'` puts into wallets, and what it notes as owed by the gateway. */
  function BackToWallet(s: State, s': State): int
    requires |s.books.rows| <= |s'.books.rows|
  {
    RefundRows(s'.books.rows[|s.books.rows|..])
  }

  function OwedByGateway(s: State, s': State): int
    requires |s.payments| <= |s'.payments|
  {
    RefundsOwed(s'.payments[|s.payments|..])
  }

  function RefundRows(rows: seq<WalletRow>): nat {
    if rows == [] then 0 else (if rows[0].kind.Refund? then rows[0].amount else 0) + RefundRows(rows[1..])
  }

  function RefundsOwed(payments: seq<Payment>): nat {
    if payments == [] then 0
    else
      var owed := if payments[0].kind.OrderRefund? && payments[0].status.Pending? then payments[0].amount else 0;
      owed + RefundsOwed(payments[1..])
  }

  lemma OneRefundRow(row: WalletRow)
    ensures RefundRows([row]) == if row.kind.Refund? then row.amount else 0
  {
    assert [row][1..] == [];
  }

  lemma OneRefundOwed(p: Payment)
    ensures RefundsOwed([p]) == if p.kind.OrderRefund? && p.status.Pending? then p.amount else 0
  {
    assert [p][1..] == [];
  }

  lemma RefundSource(s: State, o: nat)
    requires MoneyFits(s) && o < |s.orders|
    ensures FirstPurchase(s.books.rows, o) ==
              if s.orders[o].charged.wallet > 0
              then Some(WalletRow(s.orders[o].user, Purchase, s.orders[o].charged.wallet, OfOrder(o)))
              else None
  {
    assert PurchaseFits(s, o);
    FirstPurchaseIs(s.books.rows, o);
  }

  lemma WalletPartGoesBack(s: State, c: nat)
    requires MoneyFits(s) && Snapshots(s) && CancelTakesEffect(s, c)
    ensures var s' := Apply(s, CommitCancel(c)); var call := s.calls[c]; var order := s.orders[call.order];
            && |s.books.rows| <= |s'.books.rows|
            && BackToWallet(s, s') == (if call.seen.paid then order.charged.wallet else 0)
            && Balance(s'.books, order.user) == Balance(s.books, order.user) + BackToWallet(s, s')
  {
    var Cancelling(o, seen) := s.calls[c];
    assert SnapshotFits(s, s.calls[c]);
    RefundSource(s, o);
    var rows, rows' := s.books.rows, Apply(s, CommitCancel(c)).books.rows;
    if seen.paid && s.orders[o].charged.wallet > 0 {
      var row := WalletRow(s.orders[o].user, Refund, s.orders[o].charged.wallet, OfOrder(o));
      assert rows' == rows + [row];
      assert rows'[|rows|..] == [row];
      OneRefundRow(row);
    } else {
      assert rows'[|rows|..] == [];
    }
  }

  lemma GatewayPartIsOwed(s: State, c: nat)
    requires MoneyFits(s) && Snapshots(s) && CancelTakesEffect(s, c)
    ensures var s' := Apply(s, CommitCancel(c)); var call := s.calls[c]; var order := s.orders[call.order];
            && |s.payments| <= |s'.payments|
            && OwedByGateway(s, s') == (if call.seen.paid then order.charged.gateway else 0)
  {
    var Cancelling(o, seen) := s.calls[c];
    assert SnapshotFits(s, s.calls[c]) && PaymentFits(s, o) && ChargeFits(s.orders[o]);
    forall p | 0 <= p < |s.payments| && s.payments[p].kind == OrderPayment(o)
      ensures s.orders[o].charged.payment == Some(p)
    {
      assert NamedByOrder(s, p);
    }
    FirstPaidIs(s.payments, o, s.orders[o].charged.payment);
    var payments' := Apply(s, CommitCancel(c)).payments;
    if seen.paid && s.orders[o].charged.gateway > 0 {
      var owed := Payment(seen.user, OrderRefund(o), s.orders[o].charged.gateway, Pending);
      assert payments' == s.payments + [owed];
      assert payments'[|s.payments|..] == [owed];
      OneRefundOwed(owed);
    } else {
      assert payments'[|s.payments|..] == [];
    }
  }

  /**
   In every run, a cancellation of an order it had read as paid gives back the whole
   total, and the surcharge of an overdrawn wallet with it; one that had read it as unpaid gives back nothing.
   */
  lemma {:induction false} CancellationRefunds(stock: Stock, wallets: map<nat, int>, es: seq<Event>, c: nat)
    requires CancelTakesEffect(Run(Opening(stock, wallets), es), c)
    ensures var s := Run(Opening(stock, wallets), es); var s' := Apply(s, CommitCancel(c));
            var seen := s.calls[c].seen; var order := s.orders[s.calls[c].order];
            && |s.books.rows| <= |s'.books.rows| && |s.payments| <= |s'.payments|
            && BackToWallet(s, s') + OwedByGateway(s, s') == (if seen.paid then order.total + order.charged.debt else 0)
            && Balance(s'.books, order.user) == Balance(s.books, order.user) + BackToWallet(s, s')
  {
    var s := Run(Opening(stock, wallets), es);
    RunKeepsMoney(stock, wallets, es);
    WalletPartGoesBack(s, c);
    GatewayPartIsOwed(s, c);
    var o := s.calls[c].order;
    assert SnapshotFits(s, s.calls[c]) && ChargeFits(s.orders[o]) && PaymentFits(s, o);
  }

  /**
   So the promise, all of the total for a paid order, is met if and only if the
   request had read the order after it was paid and the wallet was not overdrawn at creation.
   */
  lemma {:induction false} RefundIsTotalIff(stock: Stock, wallets: map<nat, int>, es: seq<Event>, c: nat)
    requires var s := Run(Opening(stock, wallets), es);
             CancelTakesEffect(s, c) && s.orders[s.calls[c].order].paid && s.orders[s.calls[c].order].total > 0
    ensures var s := Run(Opening(stock, wallets), es); var s' := Apply(s, CommitCancel(c));
            var seen := s.calls[c].seen; var order := s.orders[s.calls[c].order];
            && |s.books.rows| <= |s'.books.rows| && |s.payments| <= |s'.payments|
            && (BackToWallet(s, s') + OwedByGateway(s, s') == order.total <==> seen.paid && order.charged.debt == 0)
  {
    CancellationRefunds(stock, wallets, es, c);
  }

  function RowSum(rows: seq<WalletRow>): nat {
    if rows == [] then 0 else RowSum(rows[..|rows| - 1]) + rows[|rows| - 1].amount
  }

  /** The sum of the successful payments of an order. */
  function PaidIn(payments: seq<Payment>, o: nat): nat {
    if payments == [] then 0
    else
      var last := payments[|payments| - 1];
      PaidIn(payments[..|payments| - 1], o)
      + (if last.kind == OrderPayment(o) && last.status.Success? then last.amount else 0)
  }

  /** What was taken for an order so far: all its PURCHASE rows and all its successful payments. */
  function Taken(s: State, o: nat): nat {
    RowSum(Purchases(s.books.rows, o)) + PaidIn(s.payments, o)
  }

  lemma {:induction false} PaidInIs(payments: seq<Payment>, o: nat, q: Option<nat>)
    requires forall p | 0 <= p < |payments| && payments[p].kind == OrderPayment(o) :: q == Some(p)
    ensures PaidIn(payments, o) ==
              if q.Some? && q.value < |payments| && payments[q.value].kind == OrderPayment(o)
                  && payments[q.value].status.Success?
              then payments[q.value].amount else 0
  {
    if payments != [] {
      PaidInIs(payments[..|payments| - 1], o, q);
    }
  }

  /** That is the wallet part, from the start, and the gateway part, once its payment succeeded. */
  lemma TakenIsBooked(s: State, o: nat)
    requires MoneyFits(s) && o < |s.orders|
    ensures var Charged(wallet, gateway, payment, _) := s.orders[o].charged;
            Taken(s, o) == wallet
              + (if payment.Some? && payment.value < |s.payments| && s.payments[payment.value].status.Success?
                 then gateway else 0)
  {
    assert PurchaseFits(s, o) && PaymentFits(s, o) && ChargeFits(s.orders[o]);
    var payment := s.orders[o].charged.payment;
    forall p | 0 <= p < |s.payments| && s.payments[p].kind == OrderPayment(o)
      ensures payment == Some(p)
    {
      assert NamedByOrder(s, p);
    }
    PaidInIs(s.payments, o, payment);
    if s.orders[o].charged.wallet > 0 {
      OneRowSum(WalletRow(s.orders[o].user, Purchase, s.orders[o].charged.wallet, OfOrder(o)));
    }
  }

  /** In every run: for an order the ledger holds exactly its own wallet part, and its gateway part once confirmed. */
  lemma {:induction false} LedgerTakesTheParts(stock: Stock, wallets: map<nat, int>, es: seq<Event>, o: nat)
    requires o < |Run(Opening(stock, wallets), es).orders|
    ensures var s := Run(Opening(stock, wallets), es); var charged := s.orders[o].charged;
            && RowSum(Purchases(s.books.rows, o)) == charged.wallet
            && |Purchases(s.books.rows, o)| <= 1
            && PaidIn(s.payments, o) <= charged.gateway
            && (s.orders[o].paid ==> Taken(s, o) == s.orders[o].total + charged.debt)
  {
    RunKeepsMoney(stock, wallets, es);
    var s := Run(Opening(stock, wallets), es);
    TakenIsBooked(s, o);
    assert PurchaseFits(s, o) && PaymentFits(s, o) && ChargeFits(s.orders[o]);
    if s.orders[o].charged.wallet > 0 {
      OneRowSum(WalletRow(s.orders[o].user, Purchase, s.orders[o].charged.wallet, OfOrder(o)));
    }
  }

  lemma OneRowSum(row: WalletRow)
    ensures RowSum([row]) == row.amount
  {
    assert [row][..0] == [];
  }

  /**
   Measured by what was taken: a cancellation gives all of it back if and only if it
   had read the order as paid or nothing was taken. The wallet part of a mixed order
   whose gateway part is still open is kept.
   */
  lemma {:induction false} GivesBackAllTakenIff(stock: Stock, wallets: map<nat, int>, es: seq<Event>, c: nat)
    requires CancelTakesEffect(Run(Opening(stock, wallets), es), c)
    ensures var s := Run(Opening(stock, wallets), es); var s' := Apply(s, CommitCancel(c));
            var o := s.calls[c].order;
            && |s.books.rows| <= |s'.books.rows| && |s.payments| <= |s'.payments|
            && (BackToWallet(s, s') + OwedByGateway(s, s') == Taken(s, o) <==> s.calls[c].seen.paid || Taken(s, o) == 0)
  {
    CancellationRefunds(stock, wallets, es, c);
    RunKeepsMoney(stock, wallets, es);
    var s := Run(Opening(stock, wallets), es);
    var o := s.calls[c].order;
    TakenIsBooked(s, o);
    assert SnapshotFits(s, s.calls[c]) && ChargeFits(s.orders[o]) && PaymentFits(s, o);
  }

  /** Money that has come in stays counted: what was booked is fixed and a success is final. */
  lemma {:induction false} TakenLater(stock: Stock, wallets: map<nat, int>, es: seq<Event>, more: seq<Event>, o: nat)
    requires o < |Run(Opening(stock, wallets), es).orders|
    ensures var s, t := Run(Opening(stock, wallets), es), Run(Opening(stock, wallets), es + more);
            && o < |t.orders| && t.orders[o].charged == s.orders[o].charged
            && (s.orders[o].paid ==> Taken(t, o) == s.orders[o].total + s.orders[o].charged.debt)
  {
    RunGrowsOrders(stock, wallets, es, more);
    ClaimsAreNeverUndone(stock, wallets, es, more);
    RunKeepsMoney(stock, wallets, es);
    RunKeepsMoney(stock, wallets, es + more);
    var s := Run(Opening(stock, wallets), es);
    TakenIsBooked(Run(Opening(stock, wallets), es + more), o);
    assert ChargeFits(s.orders[o]) && PaymentFits(s, o);
  }

  /** What the cancellation at step `i` gave back. */
  ghost function GivenBackAt(stock: Stock, wallets: map<nat, int>, es: seq<Event>, i: nat, o: nat): int
    requires CancelledAt(stock, wallets, es, i, o)
  {
    var s := Run(Opening(stock, wallets), es[..i]);
    CancellationRefunds(stock, wallets, es[..i], es[i].c);
    BackToWallet(s, Apply(s, es[i])) + OwedByGateway(s, Apply(s, es[i]))
  }

  /** Whether that cancellation had read the order as paid. */
  ghost predicate ReadAsPaidAt(stock: Stock, wallets: map<nat, int>, es: seq<Event>, i: nat, o: nat)
    requires CancelledAt(stock, wallets, es, i, o)
  {
    Run(Opening(stock, wallets), es[..i]).calls[es[i].c].seen.paid
  }

  lemma {:induction false} GivenBackIsTakenLater(stock: Stock, wallets: map<nat, int>, es: seq<Event>, i: nat, o: nat)
    requires CancelledAt(stock, wallets, es, i, o)
    ensures o < |Run(Opening(stock, wallets), es).orders|
    ensures GivenBackAt(stock, wallets, es, i, o)
         == if ReadAsPaidAt(stock, wallets, es, i, o) then Taken(Run(Opening(stock, wallets), es), o) else 0
  {
    var s := Run(Opening(stock, wallets), es[..i]);
    CancelNeedsNoRow(s, es[i].c);
    if ReadAsPaidAt(stock, wallets, es, i, o) {
      ReadAsPaidIsPaid(stock, wallets, es, i, o);
    }
    CancellationRefunds(stock, wallets, es[..i], es[i].c);
    assert es == es[..i] + es[i..];
    TakenLater(stock, wallets, es[..i], es[i..], o);
  }

  lemma ReadAsPaidIsPaid(stock: Stock, wallets: map<nat, int>, es: seq<Event>, i: nat, o: nat)
    requires CancelledAt(stock, wallets, es, i, o) && ReadAsPaidAt(stock, wallets, es, i, o)
    ensures Run(Opening(stock, wallets), es[..i]).orders[o].paid
  {
    RunKeepsMoney(stock, wallets, es[..i]);
    var s := Run(Opening(stock, wallets), es[..i]);
    assert SnapshotFits(s, s.calls[es[i].c]);
  }

  /**
   At any time after: what the cancellation of an order gave back is all that was
   taken for it up to now if and only if the cancellation had read it as paid or
   nothing has been taken. Money that comes in afterwards is kept.
   */
  lemma {:induction false} CancelledOrderIsSettledIff(
    stock: Stock, wallets: map<nat, int>, es: seq<Event>, i: nat, o: nat)
    requires CancelledAt(stock, wallets, es, i, o)
    ensures var now := Run(Opening(stock, wallets), es);
            o < |now.orders|
            && (GivenBackAt(stock, wallets, es, i, o) == Taken(now, o)
                <==> ReadAsPaidAt(stock, wallets, es, i, o) || Taken(now, o) == 0)
  {
    GivenBackIsTakenLater(stock, wallets, es, i, o);
  }

  /** So for every cancelled order there is one step that settled it, and it settled it exactly then. */
  lemma {:induction false} EveryCancelledOrderIsSettledIff(stock: Stock, wallets: map<nat, int>, es: seq<Event>, o: nat)
    returns (i: nat)
    requires o < |Run(Opening(stock, wallets), es).orders| && Run(Opening(stock, wallets), es).orders[o].cancelled
    ensures CancelledAt(stock, wallets, es, i, o) && forall j | CancelledAt(stock, wallets, es, j, o) :: j == i
    ensures GivenBackAt(stock, wallets, es, i, o) == Taken(Run(Opening(stock, wallets), es), o)
       <==> ReadAsPaidAt(stock, wallets, es, i, o) || Taken(Run(Opening(stock, wallets), es), o) == 0
  {
    assert es[..|es|] == es;
    i := CancelledWhen(stock, wallets, es, |es|, o);
    forall j | CancelledAt(stock, wallets, es, j, o) ensures j == i {
      CancelledAtMostOnce(stock, wallets, es, i, j, o);
    }
    CancelledOrderIsSettledIff(stock, wallets, es, i, o);
  }

  // ---------------------------------------------------------------------
  // Orders that wait for their payment
  // ---------------------------------------------------------------------

  /** An order waiting for payment has a gateway part, is not paid and not cancelled. */
  ghost predicate PendingIsOpen(s: State) {
    forall o | 0 <= o < |s.orders| && s.orders[o].status.PendingPayment? ::
      !s.orders[o].paid && s.orders[o].charged.gateway > 0 && !s.orders[o].cancelled
  }

  ghost predicate SnapshotsOpen(s: State) {
    forall c | c in s.calls && s.calls[c].Cancelling? && s.calls[c].seen.status.PendingPayment? :: !s.calls[c].seen.paid
  }

  /** No step but a write by hand puts an order back to waiting. */
  lemma StatusComesFrom(s: State, e: Event, o: nat)
    requires e.WriteStatus? ==> !e.status.PendingPayment?
    requires o < |s.orders| && o < |Apply(s, e).orders| && Apply(s, e).orders[o].status.PendingPayment?
    ensures Apply(s, e).orders[o] == s.orders[o]
  {
    if !MovesGoods(e) {
      OthersLeaveGoods(s, e);
    }
  }

  lemma ApplyKeepsPendingOpen(s: State, e: Event)
    requires MoneyFits(s) && PendingIsOpen(s) && (e.WriteStatus? ==> !e.status.PendingPayment?)
    ensures PendingIsOpen(Apply(s, e))
  {
    forall o | 0 <= o < |Apply(s, e).orders| && Apply(s, e).orders[o].status.PendingPayment?
      ensures var order := Apply(s, e).orders[o]; !order.paid && order.charged.gateway > 0 && !order.cancelled
    {
      if o < |s.orders| {
        StatusComesFrom(s, e, o);
      } else {
        OrdersComeFrom(s, e, o);
        assert CreationFits(s.calls[e.c]);
      }
    }
  }

  lemma ApplyKeepsSnapshotsOpen(s: State, e: Event)
    requires PendingIsOpen(s) && SnapshotsOpen(s)
    ensures SnapshotsOpen(Apply(s, e))
  {
    var calls := Apply(s, e).calls;
    forall c | c in calls && calls[c].Cancelling? && calls[c].seen.status.PendingPayment?
      ensures !calls[c].seen.paid
    {
      CancellationsComeFrom(s, e, c);
    }
  }

  /** Nobody sets an order back to waiting by hand. */
  ghost predicate NoHandWrittenPending(es: seq<Event>) {
    forall i | 0 <= i < |es| && es[i].WriteStatus? :: !es[i].status.PendingPayment?
  }

  /**
   Unless someone writes that status by hand, whatever waits for payment is unpaid, and so is what an
   expiry has read.
   */
  lemma {:induction false} WaitingOrdersAreOpen(stock: Stock, wallets: map<nat, int>, es: seq<Event>)
    requires NoHandWrittenPending(es)
    ensures PendingIsOpen(Run(Opening(stock, wallets), es)) && SnapshotsOpen(Run(Opening(stock, wallets), es))
  {
    if es != [] {
      var s := Run(Opening(stock, wallets), es[..|es| - 1]);
      WaitingOrdersAreOpen(stock, wallets, es[..|es| - 1]);
      RunKeepsMoney(stock, wallets, es[..|es| - 1]);
      ApplyKeepsPendingOpen(s, es[|es| - 1]);
      ApplyKeepsSnapshotsOpen(s, es[|es| - 1]);
    }
  }
}
