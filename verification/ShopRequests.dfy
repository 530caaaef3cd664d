/** Each request from its first step to its last with nothing in between: when it is served, and all it changes. */
module ShopRequests {
  import opened Options
  import opened Checkout
  import opened Shop
  import opened ShopStock
  import opened ShopWallets
  import opened ShopPayments
  import opened ShopRefunds

  /** The balance of `user`, and no other, is `amount` more. */
  ghost predicate OnlyBalance(b: Books, b': Books, user: nat, amount: int) {
    forall u: nat :: Balance(b', u) == Balance(b, u) + (if u == user then amount else 0)
  }

  ghost predicate SameBalances(b: Books, b': Books) {
    b'.rows == b.rows && forall u: nat :: Balance(b', u) == Balance(b, u)
  }

  // ---------------------------------------------------------------------
  // An order
  // ---------------------------------------------------------------------

  /** What is paid at once, and in which way, is enough for the total. */
  predicate Affordable(pay: PaymentMethod, balance: int, total: nat, hasGateway: bool) {
    match pay
    case FreightCollect => true
    case Wallet => balance >= total
    case Mixed => balance >= total || hasGateway
    case Gateway => total == 0 || hasGateway
  }

  /** As much as the payment may take from the wallet and the wallet has. */
  function FromWallet(pay: PaymentMethod, balance: int, total: nat): nat {
    match pay
    case Wallet => total
    case Mixed => if balance < 0 then 0 else if balance < total then balance else total
    case _ => 0
  }

  /** The rest, and the debt of an overdrawn wallet with it. */
  function FromGateway(pay: PaymentMethod, balance: int, total: nat): int {
    if pay.FreightCollect? then 0
    else total - FromWallet(pay, balance, total) + (if pay.Mixed? && balance < 0 then -balance else 0)
  }

  function OrderAlone(
    s: State, c: nat, user: nat, lines: seq<Line>, total: nat, pay: PaymentMethod, hasGateway: bool): State
  {
    Apply(Apply(s, BeginCreate(c, user, lines, total, pay, hasGateway)), CommitCreate(c))
  }

  lemma OrderStarts(
    s: State, c: nat, user: nat, lines: seq<Line>, total: nat, pay: PaymentMethod, hasGateway: bool)
    requires c !in s.calls && lines != []
    ensures var t := Apply(s, BeginCreate(c, user, lines, total, pay, hasGateway));
            var balance := if UsesWallet(pay) then Balance(s.books, user) else 0;
            && SameBalances(s.books, t.books) && t == s.(books := t.books, calls := t.calls)
            && t.books.wallets.Keys == s.books.wallets.Keys + (if pay.Wallet? || pay.Mixed? then {user} else {})
            && (c in t.calls <==> Affordable(pay, balance, total, hasGateway))
            && (c !in t.calls ==> t.calls == s.calls)
            && (c in t.calls ==> t.calls - {c} == s.calls && t.calls[c].Creating?)
            && (c in t.calls ==>
                  var call := t.calls[c];
                  && call.user == user && call.lines == lines && call.total == total && call.pay == pay
                  && Part(call.split.wallet) == FromWallet(pay, balance, total)
                  && call.split.gateway == FromGateway(pay, balance, total) >= 0
                  && call.debt == if pay.Mixed? && balance < 0 then -balance else 0)
  {
    if UsesWallet(pay) {
      assert SameBalances(s.books, WithWallet(s.books, user));
    }
    var t := Apply(s, BeginCreate(c, user, lines, total, pay, hasGateway));
    if c in t.calls {
      assert t.calls - {c} == s.calls;
    }
  }

  /**
   An order that can be paid for and served is written as asked: its parts, its status, whether it is
   paid, what leaves the wallet and the shelf, and what the gateway is asked for.
   */
  lemma OrderIsPlaced(
    s: State, c: nat, user: nat, lines: seq<Line>, total: nat, pay: PaymentMethod, hasGateway: bool)
    requires c !in s.calls && lines != [] && NonNegative(s.stock)
    requires Affordable(pay, Balance(s.books, user), total, hasGateway)
    requires Known(s.stock, lines) && Enough(s.stock, lines)
    ensures var t := OrderAlone(s, c, user, lines, total, pay, hasGateway);
            var balance := Balance(s.books, user); var o := |s.orders|;
            var wallet, gateway := FromWallet(pay, balance, total), FromGateway(pay, balance, total);
            && gateway >= 0
            && t.orders == s.orders + [Order(
                 user, lines, total, pay,
                 if gateway > 0 then PendingPayment else Processing, gateway == 0 && !pay.FreightCollect?, false,
                 Charged(wallet, gateway, if gateway > 0 then Some(|s.payments|) else None,
                         if pay.Mixed? && balance < 0 then -balance else 0))]
            && Less(t.stock, s.stock, lines)
            && t.books.rows == s.books.rows
               + (if wallet > 0 then [WalletRow(user, Purchase, wallet, OfOrder(o))] else [])
            && OnlyBalance(s.books, t.books, user, 0 - wallet)
            && t.payments == s.payments
               + (if gateway > 0 then [Payment(user, OrderPayment(o), gateway, Pending)] else [])
            && t == s.(orders := t.orders, stock := t.stock, books := t.books, payments := t.payments)
  {
    OrderStarts(s, c, user, lines, total, pay, hasGateway);
    ReserveTakesTheLines(s.stock, lines);
    var begun := Apply(s, BeginCreate(c, user, lines, total, pay, hasGateway));
    assert begun.calls[c].Creating? && Reserve(begun.stock, lines).Some?;
  }

  /** Any other order leaves nothing behind but, where there was none, an empty wallet. */
  lemma OrderIsRefused(
    s: State, c: nat, user: nat, lines: seq<Line>, total: nat, pay: PaymentMethod, hasGateway: bool)
    requires c !in s.calls && NonNegative(s.stock)
    requires lines == [] || !Affordable(pay, Balance(s.books, user), total, hasGateway)
             || !Known(s.stock, lines) || !Enough(s.stock, lines)
    ensures var t := OrderAlone(s, c, user, lines, total, pay, hasGateway);
            && SameBalances(s.books, t.books) && t == s.(books := t.books)
            && t.books.wallets.Keys
               == s.books.wallets.Keys + (if lines != [] && (pay.Wallet? || pay.Mixed?) then {user} else {})
  {
    ReserveTakesTheLines(s.stock, lines);
    if lines != [] {
      OrderStarts(s, c, user, lines, total, pay, hasGateway);
    }
  }

  // ---------------------------------------------------------------------
  // A cancellation
  // ---------------------------------------------------------------------

  /** Customers cancel their own orders, staff any, both before shipping; what expires still waits for payment. */
  predicate MayBeCancelledBy(order: Order, who: Canceller) {
    && (who.Customer? ==> who.user == order.user)
    && order.status in (if who.Expiry? then {PendingPayment} else {PendingPayment, Processing})
  }

  function CancelAlone(s: State, c: nat, o: nat, who: Canceller): State {
    Apply(Apply(s, BeginCancel(c, o, who)), CommitCancel(c))
  }

  /** A cancellation begins if and only if there is the order and the caller may cancel it. */
  lemma CancellationBeginsIff(s: State, c: nat, o: nat, who: Canceller)
    requires c !in s.calls
    ensures var t := Apply(s, BeginCancel(c, o, who));
            && (c in t.calls <==> o < |s.orders| && MayBeCancelledBy(s.orders[o], who))
            && t == if c in t.calls then s.(calls := s.calls[c := Cancelling(o, s.orders[o])]) else s
  {
  }

  /**
   A cancellation that is allowed, the first of its order, with all variants still there: the goods go
   back on the shelf, what a paid order took goes back to the wallet or is noted as owed, and the
   order is cancelled. Nothing else changes.
   */
  lemma OrderIsCancelled(s: State, c: nat, o: nat, who: Canceller)
    requires MoneyFits(s) && c !in s.calls
    requires o < |s.orders| && MayBeCancelledBy(s.orders[o], who) && !s.orders[o].cancelled
    requires Known(s.stock, s.orders[o].lines)
    ensures var t := CancelAlone(s, c, o, who); var order := s.orders[o];
            var wallet, gateway := order.charged.wallet, order.charged.gateway;
            && t.orders == s.orders[o := order.(status := Cancelled, cancelled := true)]
            && Less(s.stock, t.stock, order.lines)
            && t.books.rows == s.books.rows
               + (if order.paid && wallet > 0 then [WalletRow(order.user, Refund, wallet, OfOrder(o))] else [])
            && OnlyBalance(s.books, t.books, order.user, if order.paid then wallet else 0)
            && t.payments == s.payments
               + (if order.paid && gateway > 0 then [Payment(order.user, OrderRefund(o), gateway, Pending)] else [])
            && t == s.(orders := t.orders, stock := t.stock, books := t.books, payments := t.payments)
  {
    RestockAddsTheLines(s.stock, s.orders[o].lines);
    RefundSource(s, o);
    PaidSource(s, o);
    var begun := Apply(s, BeginCancel(c, o, who));
    assert begun == s.(calls := s.calls[c := Cancelling(o, s.orders[o])]);
    assert begun.calls - {c} == s.calls;
  }

  /** The successful payment a refund is noted for is the gateway part of a paid order. */
  lemma PaidSource(s: State, o: nat)
    requires MoneyFits(s) && o < |s.orders|
    ensures s.orders[o].paid ==>
              FirstPaid(s.payments, o) ==
                if s.orders[o].charged.gateway > 0 then Some(s.payments[s.orders[o].charged.payment.value]) else None
    ensures s.orders[o].paid && s.orders[o].charged.gateway > 0 ==>
              s.payments[s.orders[o].charged.payment.value].amount == s.orders[o].charged.gateway
  {
    assert PaymentFits(s, o) && ChargeFits(s.orders[o]);
    forall p | 0 <= p < |s.payments| && s.payments[p].kind == OrderPayment(o)
      ensures s.orders[o].charged.payment == Some(p)
    {
      assert NamedByOrder(s, p);
    }
    FirstPaidIs(s.payments, o, s.orders[o].charged.payment);
  }

  /** Any other cancellation changes nothing at all. */
  lemma CancellationIsRefused(s: State, c: nat, o: nat, who: Canceller)
    requires c !in s.calls
    requires o < |s.orders| && MayBeCancelledBy(s.orders[o], who) && !s.orders[o].cancelled ==>
               !Known(s.stock, s.orders[o].lines)
    ensures CancelAlone(s, c, o, who) == s
  {
    CancellationBeginsIff(s, c, o, who);
    if o < |s.orders| {
      assert s.calls[c := Cancelling(o, s.orders[o])] - {c} == s.calls;
      RestockAddsTheLines(s.stock, s.orders[o].lines);
    }
  }

  // ---------------------------------------------------------------------
  // A wallet charge
  // ---------------------------------------------------------------------

  /** The charge, its verification and the answer of the gateway. */
  function ChargeAlone(s: State, c: nat, user: nat, amount: nat, ok: bool): State {
    var p := |s.payments|;
    var verified := Apply(Apply(s, InitiateCharge(user, amount)), BeginVerifyCharge(c, user, p));
    Apply(Apply(Apply(verified, Claim(c)), GatewayAnswers(c, ok)), Confirm(c))
  }

  lemma ChargeIsClaimed(s: State, c: nat, user: nat, amount: nat)
    requires c !in s.calls
    ensures var p := |s.payments|;
            Apply(Apply(Apply(s, InitiateCharge(user, amount)), BeginVerifyCharge(c, user, p)), Claim(c))
            == s.(payments := s.payments + [Payment(user, WalletCharge, amount, Failed)],
                  calls := s.calls[c := Verifying(p, Claimed)])
  {
    var p := |s.payments|;
    var asked := Apply(s, InitiateCharge(user, amount));
    assert asked == s.(payments := s.payments + [Payment(user, WalletCharge, amount, Pending)]);
    var verified := Apply(asked, BeginVerifyCharge(c, user, p));
    assert verified == asked.(calls := s.calls[c := Verifying(p, Read)]);
    assert WithStatus(asked.payments, p, Failed) == s.payments + [Payment(user, WalletCharge, amount, Failed)];
    assert s.calls[c := Verifying(p, Read)][c := Verifying(p, Claimed)] == s.calls[c := Verifying(p, Claimed)];
  }

  /** A charge the gateway confirms: its amount and one DEPOSIT row of it, to its owner; one it declines: neither. */
  lemma ChargeIsCreditedIff(s: State, c: nat, user: nat, amount: nat, ok: bool)
    requires c !in s.calls
    ensures var t := ChargeAlone(s, c, user, amount, ok); var p := |s.payments|;
            && t.payments == s.payments + [Payment(user, WalletCharge, amount, if ok then Success else Failed)]
            && t.books.rows == s.books.rows + (if ok then [WalletRow(user, Deposit, amount, OfCharge(p))] else [])
            && OnlyBalance(s.books, t.books, user, if ok then amount else 0)
            && t == s.(payments := t.payments, books := t.books)
  {
    var p := |s.payments|;
    ChargeIsClaimed(s, c, user, amount);
    var claimed := s.(payments := s.payments + [Payment(user, WalletCharge, amount, Failed)],
                      calls := s.calls[c := Verifying(p, Claimed)]);
    assert claimed.calls - {c} == s.calls;
    if ok {
      var heard := Apply(claimed, GatewayAnswers(c, true));
      assert heard == claimed.(books := WithWallet(s.books, user), calls := heard.calls);
      assert heard.calls[c] == Verifying(p, Confirmed) && heard.calls - {c} == s.calls;
      assert WithStatus(heard.payments, p, Success) == s.payments + [Payment(user, WalletCharge, amount, Success)];
    }
  }

  /**
   A verification goes on if and only if the charge exists, belongs to the caller and is not credited
   yet; otherwise nothing happens but that the owner of a credited one has a wallet.
   */
  lemma VerificationGoesOnIff(s: State, c: nat, user: nat, p: nat)
    requires c !in s.calls
    ensures var t := Apply(s, BeginVerifyCharge(c, user, p));
            && (c in t.calls <==>
                  && p < |s.payments| && s.payments[p].kind.WalletCharge? && s.payments[p].user == user
                  && !s.payments[p].status.Success?)
            && (c in t.calls ==> t == s.(calls := s.calls[c := Verifying(p, Read)]))
            && (c !in t.calls ==>
                  && SameBalances(s.books, t.books) && t == s.(books := t.books)
                  && t.books.wallets.Keys == s.books.wallets.Keys
                     + (if p < |s.payments| && s.payments[p].user == user && s.payments[p].kind == WalletCharge
                           && s.payments[p].status == Success
                        then {user} else {}))
  {
  }

  // ---------------------------------------------------------------------
  // The payment of an order
  // ---------------------------------------------------------------------

  function PaymentAlone(s: State, c: nat, user: nat, o: nat, ok: bool): State {
    Apply(Apply(Apply(Apply(s, BeginVerifyOrder(c, user, o)), Claim(c)), GatewayAnswers(c, ok)), Confirm(c))
  }

  lemma {:induction false} NoPending(payments: seq<Payment>, o: nat)
    requires forall p | 0 <= p < |payments| && payments[p].kind == OrderPayment(o) :: !payments[p].status.Pending?
    ensures LastPending(payments, o) == None
  {
    if payments != [] {
      NoPending(payments[..|payments| - 1], o);
    }
  }

  lemma {:induction false} OnlyPending(payments: seq<Payment>, o: nat, p: nat)
    requires p < |payments| && payments[p].kind == OrderPayment(o) && payments[p].status.Pending?
    requires forall q | 0 <= q < |payments| && payments[q].kind == OrderPayment(o) :: q == p
    ensures LastPending(payments, o) == Some(p)
  {
    if p < |payments| - 1 {
      OnlyPending(payments[..|payments| - 1], o, p);
    }
  }

  /** The verification of an order begins if and only if it is the caller's own and its payment is pending. */
  lemma PaymentBeginsIff(s: State, c: nat, user: nat, o: nat)
    requires MoneyFits(s) && c !in s.calls
    ensures var t := Apply(s, BeginVerifyOrder(c, user, o));
            && (c in t.calls <==>
                  && o < |s.orders| && s.orders[o].user == user && s.orders[o].charged.payment.Some?
                  && s.orders[o].charged.payment.value < |s.payments|
                  && s.payments[s.orders[o].charged.payment.value].status.Pending?)
            && t == if c in t.calls then
                      s.(calls := s.calls[c := Verifying(s.orders[o].charged.payment.value, Read)]) else s
  {
    if o < |s.orders| {
      assert PaymentFits(s, o);
      var payment := s.orders[o].charged.payment;
      forall p | 0 <= p < |s.payments| && s.payments[p].kind == OrderPayment(o)
        ensures payment == Some(p)
      {
        assert NamedByOrder(s, p);
      }
      if payment.Some? && s.payments[payment.value].status.Pending? {
        OnlyPending(s.payments, o, payment.value);
      } else {
        NoPending(s.payments, o);
      }
    }
  }

  /** Confirmed by the gateway the order is paid and goes to processing, declined it stays as it is. */
  lemma OrderIsPaidIff(s: State, c: nat, user: nat, o: nat, ok: bool)
    requires MoneyFits(s) && c !in s.calls && c in Apply(s, BeginVerifyOrder(c, user, o)).calls
    ensures o < |s.orders| && s.orders[o].charged.payment.Some?
    ensures s.orders[o].charged.payment.value < |s.payments|
    ensures var p := s.orders[o].charged.payment.value;
            PaymentAlone(s, c, user, o, ok) == s.(
              payments := s.payments[p := s.payments[p].(status := if ok then Success else Failed)],
              orders := if ok then s.orders[o := s.orders[o].(status := Processing, paid := true)] else s.orders)
  {
    PaymentBeginsIff(s, c, user, o);
    var p := s.orders[o].charged.payment.value;
    assert PaymentFits(s, o);
    var claimed := Apply(Apply(s, BeginVerifyOrder(c, user, o)), Claim(c));
    assert claimed.payments == s.payments[p := s.payments[p].(status := Failed)];
    assert claimed.calls - {c} == s.calls && claimed.calls[c] == Verifying(p, Claimed);
    assert claimed == s.(payments := claimed.payments, calls := claimed.calls);
    if ok {
      var heard := Apply(claimed, GatewayAnswers(c, true));
      assert heard.calls - {c} == s.calls && heard == claimed.(calls := heard.calls);
    }
  }

  // ---------------------------------------------------------------------
  // A withdrawal
  // ---------------------------------------------------------------------

  /** A withdrawal is recorded, to wait for its review, if and only if there is a wallet that covers it. */
  lemma WithdrawalIsRecordedIff(s: State, c: nat, user: nat, amount: nat)
    requires c !in s.calls
    ensures Apply(Apply(s, BeginWithdraw(c, user, amount)), CommitWithdraw(c)) ==
              if user in s.books.wallets && Balance(s.books, user) >= amount then
                s.(withdrawals := s.withdrawals + [Withdrawal(user, amount, Waiting)])
              else s
  {
    assert s.calls[c := Withdrawing(user, amount)] - {c} == s.calls;
  }

  function ReviewAlone(s: State, c: nat, w: nat, approve: bool): State {
    Apply(Apply(Apply(s, BeginReview(c, w, approve)), CheckBalance(c)), CommitReview(c))
  }

  /** A review that begins reads a withdrawal that still waits. */
  lemma ReviewBeginsIff(s: State, c: nat, w: nat, approve: bool)
    requires c !in s.calls
    ensures var t := Apply(s, BeginReview(c, w, approve));
            && (c in t.calls <==> w < |s.withdrawals| && s.withdrawals[w].status.Waiting?)
            && t == if c in t.calls then s.(calls := s.calls[c := Reviewing(w, approve, false)]) else s
  {
  }

  /**
   An approval takes the amount off the wallet of the one who asked and writes one WITHDRAW row of
   it, if and only if the balance covers it; a rejection only closes the withdrawal.
   */
  lemma WithdrawalIsReviewed(s: State, c: nat, w: nat, approve: bool)
    requires c !in s.calls && w < |s.withdrawals| && s.withdrawals[w].status.Waiting?
    ensures var t := ReviewAlone(s, c, w, approve); var Withdrawal(user, amount, _) := s.withdrawals[w];
            var covered := user in s.books.wallets && Balance(s.books, user) >= amount;
            && t.withdrawals == (if !approve then s.withdrawals[w := Withdrawal(user, amount, Rejected)]
                                 else if covered then s.withdrawals[w := Withdrawal(user, amount, Approved)]
                                 else s.withdrawals)
            && t.books.rows == s.books.rows
               + (if approve && covered then [WalletRow(user, Withdraw, amount, OfWithdrawal(w))] else [])
            && OnlyBalance(s.books, t.books, user, if approve && covered then 0 - amount else 0)
            && t == s.(withdrawals := t.withdrawals, books := t.books)
  {
    var begun := Apply(s, BeginReview(c, w, approve));
    assert begun == s.(calls := s.calls[c := Reviewing(w, approve, false)]) && begun.calls - {c} == s.calls;
    var checked := Apply(begun, CheckBalance(c));
    assert checked.calls - {c} == s.calls && checked == s.(calls := checked.calls);
  }

  // ---------------------------------------------------------------------
  // A return
  // ---------------------------------------------------------------------

  /** A return is filed if and only if it is of the caller's own, delivered order, or of a line in it. */
  lemma ReturnIsFiledIff(s: State, c: nat, user: nat, o: nat, item: Option<nat>)
    requires c !in s.calls
    ensures Apply(Apply(s, BeginAskReturn(c, user, o, item)), CommitAskReturn(c)) ==
              if o < |s.orders| && s.orders[o].user == user && s.orders[o].status == Delivered
                 && (item.Some? ==> item.value < |s.orders[o].lines|)
              then s.(orders := s.orders[o := s.orders[o].(status := ReturnRequested)],
                      sentBack := s.sentBack + [Return(o, item, Waiting)])
              else s
  {
    assert s.calls[c := AskingReturn(o, item)] - {c} == s.calls;
  }

  function ReturnAlone(s: State, c: nat, r: nat, target: ReviewStatus, refund: nat): State {
    Apply(Apply(s, BeginReturn(c, r, target, refund)), CommitReturn(c))
  }

  /** What was received, or settled, before is refused to be received again; what was settled, to be settled again. */
  lemma ReturnBeginsIff(s: State, c: nat, r: nat, target: ReviewStatus, refund: nat)
    requires c !in s.calls && r < |s.sentBack| && s.sentBack[r].order < |s.orders|
    ensures var t := Apply(s, BeginReturn(c, r, target, refund)); var status := s.sentBack[r].status;
            && (c in t.calls <==>
                  && (target == Received ==> status != Received && status != PaidBack)
                  && (target == PaidBack ==> status != PaidBack))
            && t == if c in t.calls then
                      s.(calls := s.calls[c := Returning(r, target, refund, s.orders[s.sentBack[r].order].status)])
                    else s
  {
  }

  /** A line of an order: its goods are those of this one line. */
  lemma OneLineQuantity(line: Line, v: nat)
    ensures Quantity([line], v) == if line.variant == v then line.quantity else 0
  {
    assert [line][..0] == [];
  }

  lemma BackOnTheShelf(stock: Stock, lines: seq<Line>, item: Option<nat>)
    requires Known(stock, lines) && (item.Some? ==> item.value < |lines|)
    ensures var back := if item.None? then lines else [lines[item.value]]; var shelf := Restock(stock, back);
            && shelf.Some? && shelf.value.Keys == stock.Keys
            && forall v | v in stock ::
                 shelf.value[v] == stock[v]
                   + (match item
                      case None => Quantity(lines, v)
                      case Some(i) => if lines[i].variant == v then lines[i].quantity else 0)
  {
    var back := if item.None? then lines else [lines[item.value]];
    assert forall l <- back :: l in lines;
    RestockAddsTheLines(stock, back);
    forall v | item.Some?
      ensures Quantity(back, v) == if lines[item.value].variant == v then lines[item.value].quantity else 0
    {
      OneLineQuantity(lines[item.value], v);
    }
  }

  /**
   Goods received: of the one line that was sent back its quantity goes on the shelf of its variant,
   of a whole order every line; no money moves.
   */
  lemma GoodsAreReceived(s: State, c: nat, r: nat, refund: nat)
    requires c !in s.calls && r < |s.sentBack| && s.sentBack[r].order < |s.orders|
    requires s.sentBack[r].status != Received && s.sentBack[r].status != PaidBack
    requires Known(s.stock, s.orders[s.sentBack[r].order].lines)
    requires s.sentBack[r].item.Some? ==> s.sentBack[r].item.value < |s.orders[s.sentBack[r].order].lines|
    ensures var t := ReturnAlone(s, c, r, Received, refund);
            var item, lines := s.sentBack[r].item, s.orders[s.sentBack[r].order].lines;
            && t.stock.Keys == s.stock.Keys
            && (forall v | v in s.stock ::
                  t.stock[v] == s.stock[v]
                    + (match item
                       case None => Quantity(lines, v)
                       case Some(i) => if lines[i].variant == v then lines[i].quantity else 0))
            && t.restocked == s.restocked + (if item.None? then lines else [lines[item.value]])
            && t.sentBack == s.sentBack[r := s.sentBack[r].(status := Received)]
            && t == s.(stock := t.stock, restocked := t.restocked, sentBack := t.sentBack)
  {
    var ret := s.sentBack[r];
    var lines := s.orders[ret.order].lines;
    var back := if ret.item.None? then lines else [lines[ret.item.value]];
    BackOnTheShelf(s.stock, lines, ret.item);
    var begun := Apply(s, BeginReturn(c, r, Received, refund));
    assert begun.calls - {c} == s.calls && begun == s.(calls := begun.calls);
  }

  /**
   A return settled: the customer is credited with the amount, by one REFUND row, and an order
   returned as a whole is closed; no goods move. Without an amount nothing happens.
   */
  lemma ReturnIsSettled(s: State, c: nat, r: nat, refund: nat)
    requires c !in s.calls && r < |s.sentBack| && s.sentBack[r].order < |s.orders|
    requires s.sentBack[r].status != PaidBack
    ensures var t := ReturnAlone(s, c, r, PaidBack, refund); var o := s.sentBack[r].order; var user := s.orders[o].user;
            if refund == 0 then t == s
            else
              && t.books.rows == s.books.rows + [WalletRow(user, Refund, refund, OfOrder(o))]
              && OnlyBalance(s.books, t.books, user, refund)
              && t.orders == (if s.sentBack[r].item.None? then s.orders[o := s.orders[o].(status := Returned)]
                              else s.orders)
              && t.sentBack == s.sentBack[r := s.sentBack[r].(status := PaidBack)]
              && t == s.(books := t.books, orders := t.orders, sentBack := t.sentBack)
  {
    var begun := Apply(s, BeginReturn(c, r, PaidBack, refund));
    assert begun.calls - {c} == s.calls && begun == s.(calls := begun.calls);
    assert Restock(s.stock, []) == Some(s.stock) && s.restocked + [] == s.restocked;
  }

  /** A return rejected: the order it was asked for counts as delivered again, unless something else became of it. */
  lemma ReturnIsRejected(s: State, c: nat, r: nat, refund: nat)
    requires c !in s.calls && r < |s.sentBack| && s.sentBack[r].order < |s.orders|
    ensures var o := s.sentBack[r].order;
            ReturnAlone(s, c, r, Rejected, refund) == s.(
              orders := if s.orders[o].status == ReturnRequested then s.orders[o := s.orders[o].(status := Delivered)]
                        else s.orders,
              sentBack := s.sentBack[r := s.sentBack[r].(status := Rejected)])
  {
    var begun := Apply(s, BeginReturn(c, r, Rejected, refund));
    assert begun.calls - {c} == s.calls && begun == s.(calls := begun.calls);
    assert Restock(s.stock, []) == Some(s.stock) && s.restocked + [] == s.restocked;
  }
}
