/**
 Orders, payments, wallets and stock. Each database transaction and each
 conditional update is one step; the reads a request makes before it are earlier
 steps, kept with the request while others run. A run is any sequence of steps.
 */
module Shop {
  import opened Options
  import opened Checkout

  datatype Line = Line(variant: nat, quantity: nat)

  type Stock = map<nat, int>

  datatype Status =
    | PendingPayment | Processing | Shipped | Delivered
    | Cancelled | ReturnRequested | Returned | Refunded | OrderFailed

  /**
   What was asked for at creation: the parts booked with the wallet and the gateway,
   the payment row of the gateway part, and by how much the wallet was overdrawn then.
   */
  datatype Charged = Charged(wallet: nat, gateway: nat, payment: Option<nat>, debt: nat)

  /** `cancelled` says that the order has its one cancellation row. */
  datatype Order = Order(
    user: nat, lines: seq<Line>, total: nat, pay: PaymentMethod,
    status: Status, paid: bool, cancelled: bool, charged: Charged)

  datatype PaymentKind = WalletCharge | OrderPayment(order: nat) | OrderRefund(order: nat)
  datatype PaymentStatus = Pending | Failed | Success
  datatype Payment = Payment(user: nat, kind: PaymentKind, amount: nat, status: PaymentStatus)

  datatype RowKind = Deposit | Purchase | Refund | Withdraw

  /** What a wallet row was written for. */
  datatype Ref = OfOrder(order: nat) | OfCharge(payment: nat) | OfWithdrawal(withdrawal: nat)
  datatype WalletRow = WalletRow(user: nat, kind: RowKind, amount: nat, ref: Ref)

  datatype ReviewStatus = Waiting | Approved | Rejected | Received | PaidBack
  datatype Withdrawal = Withdrawal(user: nat, amount: nat, status: ReviewStatus)

  /** A return of one line of an order, or of all of it. */
  datatype Return = Return(order: nat, item: Option<nat>, status: ReviewStatus)

  datatype Stage = Read | Claimed | Confirmed

  /** A request under way, with what it has read so far. */
  datatype Call =
    | Creating(user: nat, lines: seq<Line>, total: nat, pay: PaymentMethod, split: Split, debt: nat)
    | Cancelling(order: nat, seen: Order)
    | Verifying(payment: nat, stage: Stage)
    | Withdrawing(user: nat, amount: nat)
    | Reviewing(withdrawal: nat, approve: bool, covered: bool)
    | AskingReturn(order: nat, item: Option<nat>)
    | Returning(ret: nat, target: ReviewStatus, refund: nat, seenStatus: Status)

  /** The wallets by user, and the rows written for every change of a balance. */
  datatype Books = Books(wallets: map<nat, int>, rows: seq<WalletRow>)

  /** Ids of orders, payments, withdrawals and returns are positions; `restocked` lists what returns put back. */
  datatype State = State(
    stock: Stock,
    books: Books,
    orders: seq<Order>,
    payments: seq<Payment>,
    withdrawals: seq<Withdrawal>,
    sentBack: seq<Return>,
    restocked: seq<Line>,
    calls: map<nat, Call>)

  datatype Canceller = Customer(user: nat) | Admin | Expiry

  datatype Event =
    | BeginCreate(c: nat, user: nat, lines: seq<Line>, total: nat, pay: PaymentMethod, hasGateway: bool)
    | CommitCreate(c: nat)
    | BeginCancel(c: nat, order: nat, who: Canceller)
    | CommitCancel(c: nat)
    | InitiateCharge(user: nat, amount: nat)
    | BeginVerifyCharge(c: nat, user: nat, payment: nat)
    | BeginVerifyOrder(c: nat, user: nat, order: nat)
    | Claim(c: nat)
    | GatewayAnswers(c: nat, ok: bool)
    | Confirm(c: nat)
    | BeginWithdraw(c: nat, user: nat, amount: nat)
    | CommitWithdraw(c: nat)
    | BeginReview(c: nat, withdrawal: nat, approve: bool)
    | CheckBalance(c: nat)
    | CommitReview(c: nat)
    | BeginAskReturn(c: nat, user: nat, order: nat, item: Option<nat>)
    | CommitAskReturn(c: nat)
    | BeginReturn(c: nat, ret: nat, target: ReviewStatus, refund: nat)
    | CommitReturn(c: nat)
    | WriteStatus(order: nat, status: Status)
    | Drop(c: nat)

  // ---------------------------------------------------------------------
  // Stock
  // ---------------------------------------------------------------------

  /** Line after line a conditional decrement; None when one of them matches no row. */
  function Reserve(stock: Stock, lines: seq<Line>): Option<Stock> {
    if lines == [] then Some(stock)
    else
      var n := |lines| - 1;
      match Reserve(stock, lines[..n])
      case None => None
      case Some(m) =>
        var Line(v, q) := lines[n];
        if v in m && m[v] >= q then Some(m[v := m[v] - q]) else None
  }

  /** Line after line an increment; None when a variant does not exist. */
  function Restock(stock: Stock, lines: seq<Line>): Option<Stock> {
    if lines == [] then Some(stock)
    else
      var n := |lines| - 1;
      match Restock(stock, lines[..n])
      case None => None
      case Some(m) =>
        var Line(v, q) := lines[n];
        if v in m then Some(m[v := m[v] + q]) else None
  }

  // ---------------------------------------------------------------------
  // Wallets
  // ---------------------------------------------------------------------

  function Signed(row: WalletRow): int {
    if row.kind.Deposit? || row.kind.Refund? then row.amount else 0 - row.amount
  }

  /** The wallet of `user` is made, with balance zero, when missing. */
  function WithWallet(b: Books, user: nat): Books {
    if user in b.wallets then b else b.(wallets := b.wallets[user := 0])
  }

  function Balance(b: Books, user: nat): int {
    if user in b.wallets then b.wallets[user] else 0
  }

  /** Changes the balance and writes the row for it. */
  function Post(b: Books, row: WalletRow): Books {
    Books(b.wallets[row.user := Balance(b, row.user) + Signed(row)], b.rows + [row])
  }

  function FirstPurchase(rows: seq<WalletRow>, order: nat): Option<WalletRow> {
    if rows == [] then None
    else
      var n := |rows| - 1;
      var first := FirstPurchase(rows[..n], order);
      if first.Some? then first
      else if rows[n].kind.Purchase? && rows[n].ref == OfOrder(order) then Some(rows[n])
      else None
  }

  // ---------------------------------------------------------------------
  // Payments
  // ---------------------------------------------------------------------

  function FirstPaid(payments: seq<Payment>, order: nat): Option<Payment> {
    if payments == [] then None
    else
      var n := |payments| - 1;
      var first := FirstPaid(payments[..n], order);
      if first.Some? then first
      else if payments[n].kind == OrderPayment(order) && payments[n].status.Success? then Some(payments[n])
      else None
  }

  /** The latest payment of the order that is still pending. */
  function LastPending(payments: seq<Payment>, order: nat): (p: Option<nat>)
    ensures p.Some? ==>
              && p.value < |payments| && payments[p.value].kind == OrderPayment(order)
              && payments[p.value].status.Pending?
  {
    if payments == [] then None
    else
      var n := |payments| - 1;
      if payments[n].kind == OrderPayment(order) && payments[n].status.Pending? then Some(n)
      else LastPending(payments[..n], order)
  }

  function WithStatus(payments: seq<Payment>, p: nat, status: PaymentStatus): seq<Payment>
    requires p < |payments|
  {
    payments[p := payments[p].(status := status)]
  }

  function WithOrderStatus(orders: seq<Order>, o: nat, status: Status): seq<Order>
    requires o < |orders|
  {
    orders[o := orders[o].(status := status)]
  }

  function Put(s: State, c: nat, call: Call): State {
    s.(calls := s.calls[c := call])
  }

  function End(s: State, c: nat): State {
    s.(calls := s.calls - {c})
  }

  // ---------------------------------------------------------------------
  // Creating an order
  // ---------------------------------------------------------------------

  predicate UsesWallet(pay: PaymentMethod) { pay.Wallet? || pay.Mixed? }

  function StartCreate(
    s: State, c: nat, user: nat, lines: seq<Line>, total: nat, pay: PaymentMethod, hasGateway: bool): State
  {
    if c in s.calls || lines == [] then s
    else
      var s' := if UsesWallet(pay) then s.(books := WithWallet(s.books, user)) else s;
      var balance := if UsesWallet(pay) then s'.books.wallets[user] else 0;
      match SplitPayment(pay, balance, total, hasGateway)
      case Err(_) => s'
      case Ok(split) => Put(s', c, Creating(user, lines, total, pay, split, Debt(pay, balance)))
  }

  function NewOrder(nextPayment: nat, call: Call): Order
    requires call.Creating?
  {
    var paidNow := !call.pay.FreightCollect? && call.split.gateway == 0;
    var gateway := if call.split.gateway > 0 then call.split.gateway else 0;
    Order(call.user, call.lines, call.total, call.pay,
          if call.pay.FreightCollect? || paidNow then Processing else PendingPayment, paidNow, false,
          Charged(if call.split.wallet > 0 then call.split.wallet else 0, gateway,
                  if gateway > 0 then Some(nextPayment) else None, call.debt))
  }

  function FinishCreate(s: State, c: nat): State
    requires c in s.calls && s.calls[c].Creating?
  {
    var call := s.calls[c];
    match Reserve(s.stock, call.lines)
    case None => End(s, c)
    case Some(stock) =>
      var o := |s.orders|;
      var order := NewOrder(|s.payments|, call);
      var Charged(wallet, gateway, _, _) := order.charged;
      s.(stock := stock,
         orders := s.orders + [order],
         books := if wallet > 0 then Post(s.books, WalletRow(call.user, Purchase, wallet, OfOrder(o))) else s.books,
         payments := if gateway > 0 then s.payments + [Payment(call.user, OrderPayment(o), gateway, Pending)]
             else s.payments,
         calls := s.calls - {c})
  }

  // ---------------------------------------------------------------------
  // Cancelling an order
  // ---------------------------------------------------------------------

  predicate MayCancel(order: Order, who: Canceller) {
    match who
    case Customer(user) => order.user == user && (order.status.PendingPayment? || order.status.Processing?)
    case Admin => order.status.PendingPayment? || order.status.Processing?
    case Expiry => order.status.PendingPayment?
  }

  function StartCancel(s: State, c: nat, o: nat, who: Canceller): State {
    if c !in s.calls && o < |s.orders| && MayCancel(s.orders[o], who) then Put(s, c, Cancelling(o, s.orders[o])) else s
  }

  /** The wallet part of an order goes back to the wallet it came from. */
  function RefundPurchase(b: Books, o: nat): Books {
    var purchase := FirstPurchase(b.rows, o);
    if purchase.None? then b
    else Post(b, WalletRow(purchase.value.user, Refund, purchase.value.amount, OfOrder(o)))
  }

  /** A successful gateway payment is noted as owed. */
  function RefundPayment(payments: seq<Payment>, o: nat, user: nat): seq<Payment> {
    var payment := FirstPaid(payments, o);
    if payment.None? then payments else payments + [Payment(user, OrderRefund(o), payment.value.amount, Pending)]
  }

  /** All or nothing: a second cancellation row, or a variant that is gone, undoes everything. */
  function FinishCancel(s: State, c: nat): State
    requires c in s.calls && s.calls[c].Cancelling? && s.calls[c].order < |s.orders|
  {
    var Cancelling(o, seen) := s.calls[c];
    match Restock(s.stock, seen.lines)
    case None => End(s, c)
    case Some(stock) =>
      if s.orders[o].cancelled then End(s, c)
      else
        s.(stock := stock,
           books := if seen.paid then RefundPurchase(s.books, o) else s.books,
           payments := if seen.paid then RefundPayment(s.payments, o, seen.user) else s.payments,
           orders := s.orders[o := s.orders[o].(status := Cancelled, cancelled := true)],
           calls := s.calls - {c})
  }

  // ---------------------------------------------------------------------
  // Verifying a payment
  // ---------------------------------------------------------------------

  /** A charge that failed before is read and tried again; the claim then stops it. */
  function StartVerifyCharge(s: State, c: nat, user: nat, p: nat): State {
    if c in s.calls || p >= |s.payments| || s.payments[p].user != user || !s.payments[p].kind.WalletCharge? then s
    else if s.payments[p].status.Success? then s.(books := WithWallet(s.books, user))
    else Put(s, c, Verifying(p, Read))
  }

  function StartVerifyOrder(s: State, c: nat, user: nat, o: nat): State {
    if c in s.calls || o >= |s.orders| || s.orders[o].user != user then s
    else
      match LastPending(s.payments, o)
      case None => s
      case Some(p) => Put(s, c, Verifying(p, Read))
  }

  predicate AtStage(s: State, c: nat, stage: Stage) {
    c in s.calls && s.calls[c].Verifying? && s.calls[c].stage == stage && s.calls[c].payment < |s.payments|
  }

  /** The compare-and-swap: pending becomes failed, for one caller only. */
  function TakeClaim(s: State, c: nat): State
    requires AtStage(s, c, Read)
  {
    var p := s.calls[c].payment;
    if s.payments[p].status.Pending? then
      s.(payments := WithStatus(s.payments, p, Failed), calls := s.calls[c := Verifying(p, Claimed)])
    else End(s, c)
  }

  function HearGateway(s: State, c: nat, ok: bool): State
    requires AtStage(s, c, Claimed)
  {
    var p := s.calls[c].payment;
    if !ok then End(s, c)
    else
      s.(books := if s.payments[p].kind.WalletCharge? then WithWallet(s.books, s.payments[p].user) else s.books,
         calls := s.calls[c := Verifying(p, Confirmed)])
  }

  function FinishVerify(s: State, c: nat): State
    requires AtStage(s, c, Confirmed)
  {
    var p := s.calls[c].payment;
    var Payment(user, kind, amount, _) := s.payments[p];
    s.(payments := WithStatus(s.payments, p, Success),
       books := if kind.WalletCharge? then Post(s.books, WalletRow(user, Deposit, amount, OfCharge(p))) else s.books,
       orders :=
         if kind.OrderPayment? && kind.order < |s.orders| then
           s.orders[kind.order := s.orders[kind.order].(status := Processing, paid := true)]
         else s.orders,
       calls := s.calls - {c})
  }

  // ---------------------------------------------------------------------
  // Withdrawals and returns
  // ---------------------------------------------------------------------

  predicate Covers(s: State, user: nat, amount: nat) {
    user in s.books.wallets && s.books.wallets[user] >= amount
  }

  function FinishReview(s: State, c: nat): State
    requires c in s.calls && s.calls[c].Reviewing? && s.calls[c].withdrawal < |s.withdrawals|
  {
    var Reviewing(w, approve, covered) := s.calls[c];
    var Withdrawal(user, amount, _) := s.withdrawals[w];
    if approve && !covered then s
    else
      s.(withdrawals := s.withdrawals[w := Withdrawal(user, amount, if approve then Approved else Rejected)],
         books := if approve then Post(s.books, WalletRow(user, Withdraw, amount, OfWithdrawal(w))) else s.books,
         calls := s.calls - {c})
  }

  function StartReturn(s: State, c: nat, r: nat, target: ReviewStatus, refund: nat): State {
    if c in s.calls || r >= |s.sentBack| || s.sentBack[r].order >= |s.orders| then s
    else
      var was := s.sentBack[r].status;
      if target.Received? && (was.Received? || was.PaidBack?) then s
      else if target.PaidBack? && was.PaidBack? then s
      else Put(s, c, Returning(r, target, refund, s.orders[s.sentBack[r].order].status))
  }

  function ReturnedLines(order: Order, item: Option<nat>): seq<Line> {
    if item.None? then order.lines
    else if item.value < |order.lines| then [order.lines[item.value]]
    else []
  }

  /** What the transaction of a return does to the order's status. */
  function ReturnOrders(orders: seq<Order>, ret: Return, call: Call): seq<Order>
    requires call.Returning? && ret.order < |orders|
  {
    if call.target.PaidBack? && ret.item.None? then WithOrderStatus(orders, ret.order, Returned)
    else if call.target.Rejected? && call.seenStatus.ReturnRequested? then WithOrderStatus(orders, ret.order, Delivered)
    else orders
  }

  /** Goods come back when they are received, money when the return is settled, for which an amount is needed. */
  function FinishReturn(s: State, c: nat): State
    requires c in s.calls && s.calls[c].Returning?
    requires s.calls[c].ret < |s.sentBack| && s.sentBack[s.calls[c].ret].order < |s.orders|
  {
    var call := s.calls[c];
    var ret := s.sentBack[call.ret];
    var order := s.orders[ret.order];
    var lines := if call.target.Received? then ReturnedLines(order, ret.item) else [];
    match Restock(s.stock, lines)
    case None => End(s, c)
    case Some(stock) =>
      if call.target.PaidBack? && call.refund == 0 then End(s, c)
      else
        s.(stock := stock,
           restocked := s.restocked + lines,
           books :=
             if call.target.PaidBack? then
               Post(WithWallet(s.books, order.user), WalletRow(order.user, Refund, call.refund, OfOrder(ret.order)))
             else s.books,
           orders := ReturnOrders(s.orders, ret, call),
           sentBack := s.sentBack[call.ret := ret.(status := call.target)],
           calls := s.calls - {c})
  }

  // ---------------------------------------------------------------------
  // Runs
  // ---------------------------------------------------------------------

  /** An event that is not possible in a state leaves it as it is. */
  function Apply(s: State, e: Event): State {
    match e
    case BeginCreate(c, user, lines, total, pay, hasGateway) => StartCreate(s, c, user, lines, total, pay, hasGateway)
    case CommitCreate(c) => if c in s.calls && s.calls[c].Creating? then FinishCreate(s, c) else s
    case BeginCancel(c, o, who) => StartCancel(s, c, o, who)
    case CommitCancel(c) =>
      if c in s.calls && s.calls[c].Cancelling? && s.calls[c].order < |s.orders| then FinishCancel(s, c) else s
    case InitiateCharge(user, amount) => s.(payments := s.payments + [Payment(user, WalletCharge, amount, Pending)])
    case BeginVerifyCharge(c, user, p) => StartVerifyCharge(s, c, user, p)
    case BeginVerifyOrder(c, user, o) => StartVerifyOrder(s, c, user, o)
    case Claim(c) => if AtStage(s, c, Read) then TakeClaim(s, c) else s
    case GatewayAnswers(c, ok) => if AtStage(s, c, Claimed) then HearGateway(s, c, ok) else s
    case Confirm(c) => if AtStage(s, c, Confirmed) then FinishVerify(s, c) else s
    case BeginWithdraw(c, user, amount) =>
      if c !in s.calls && Covers(s, user, amount) then Put(s, c, Withdrawing(user, amount)) else s
    case CommitWithdraw(c) =>
      if c in s.calls && s.calls[c].Withdrawing? then
        s.(withdrawals := s.withdrawals + [Withdrawal(s.calls[c].user, s.calls[c].amount, Waiting)],
            calls := s.calls - {c})
      else s
    case BeginReview(c, w, approve) =>
      if c !in s.calls && w < |s.withdrawals| && s.withdrawals[w].status.Waiting?
          then Put(s, c, Reviewing(w, approve, false)) else s
    case CheckBalance(c) =>
      if c in s.calls && s.calls[c].Reviewing? && s.calls[c].withdrawal < |s.withdrawals| && s.calls[c].approve then
        var w := s.withdrawals[s.calls[c].withdrawal];
        if Covers(s, w.user, w.amount) then Put(s, c, s.calls[c].(covered := true)) else End(s, c)
      else s
    case CommitReview(c) =>
      if c in s.calls && s.calls[c].Reviewing? && s.calls[c].withdrawal < |s.withdrawals| then FinishReview(s, c) else s
    case BeginAskReturn(c, user, o, item) =>
      if c !in s.calls && o < |s.orders| && s.orders[o].user == user && s.orders[o].status.Delivered?
         && (item.None? || item.value < |s.orders[o].lines|)
      then Put(s, c, AskingReturn(o, item)) else s
    case CommitAskReturn(c) =>
      if c in s.calls && s.calls[c].AskingReturn? && s.calls[c].order < |s.orders| then
        var AskingReturn(o, item) := s.calls[c];
        s.(orders := WithOrderStatus(s.orders, o, ReturnRequested),
           sentBack := s.sentBack + [Return(o, item, Waiting)],
           calls := s.calls - {c})
      else s
    case BeginReturn(c, r, target, refund) => StartReturn(s, c, r, target, refund)
    case CommitReturn(c) =>
      if c in s.calls && s.calls[c].Returning? && s.calls[c].ret < |s.sentBack|
          && s.sentBack[s.calls[c].ret].order < |s.orders|
      then FinishReturn(s, c) else s
    case WriteStatus(o, status) =>
      if o < |s.orders| then s.(orders := WithOrderStatus(s.orders, o, status)) else s
    case Drop(c) => End(s, c)
  }

  function Run(s: State, es: seq<Event>): State {
    if es == [] then s else Apply(Run(s, es[..|es| - 1]), es[|es| - 1])
  }

  /** A shop before its first order. */
  function Opening(stock: Stock, wallets: map<nat, int>): State {
    State(stock, Books(wallets, []), [], [], [], [], [], map[])
  }

  // ---------------------------------------------------------------------
  // Requests come and go
  // ---------------------------------------------------------------------

  /** The last step of a request. */
  predicate Finishes(e: Event) {
    || e.CommitCreate? || e.CommitCancel? || e.Confirm? || e.CommitWithdraw?
    || e.CommitReview? || e.CommitAskReturn? || e.CommitReturn? || e.Drop?
  }

  lemma FinishersOnlyEnd(s: State, e: Event)
    requires Finishes(e)
    ensures var calls := Apply(s, e).calls; forall c | c in calls :: c in s.calls && calls[c] == s.calls[c]
    ensures Apply(s, e) == s || Apply(s, e).calls == s.calls - {e.c}
  {
    match e
    case CommitCreate(_) =>
    case CommitCancel(_) =>
    case Confirm(_) =>
    case CommitReview(_) =>
    case CommitReturn(_) =>
    case _ =>
  }
}
