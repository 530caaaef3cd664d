/** What the shop does not promise once requests interleave, each with a run that leads there. */
module ShopRaces {
  import opened Options
  import opened Checkout
  import opened Shop
  import opened ShopStock
  import opened ShopWallets
  import opened ShopPayments
  import opened ShopRefunds

  lemma RunAppend(s: State, es: seq<Event>, e: Event)
    ensures Run(s, es + [e]) == Apply(Run(s, es), e)
  {
    assert (es + [e])[..|es|] == es;
  }

  lemma ReserveOne(stock: Stock, v: nat, q: nat)
    ensures Reserve(stock, [Line(v, q)]) == if v in stock && stock[v] >= q then Some(stock[v := stock[v] - q]) else None
    ensures v in stock ==> Restock(stock, [Line(v, q)]) == Some(stock[v := stock[v] + q])
  {
    assert [Line(v, q)][..0] == [];
  }

  // ---------------------------------------------------------------------
  // Two orders, one balance
  // ---------------------------------------------------------------------

  /** Each of two orders takes what it had read as covered, whatever the other took meanwhile. */
  lemma BothAreTaken(s: State, c: nat, d: nat)
    requires c != d && c in s.calls && d in s.calls && s.calls[c].Creating? && s.calls[d].Creating?
    requires s.calls[c].user == s.calls[d].user && s.calls[c].split.wallet > 0 && s.calls[d].split.wallet > 0
    requires Reserve(s.stock, s.calls[c].lines).Some?
    requires Reserve(Reserve(s.stock, s.calls[c].lines).value, s.calls[d].lines).Some?
    ensures var t := Apply(Apply(s, CommitCreate(c)), CommitCreate(d)); var user := s.calls[c].user;
            Balance(t.books, user) == Balance(s.books, user) - s.calls[c].split.wallet - s.calls[d].split.wallet
  {
    BooksAreEntered(s, CommitCreate(c));
    BooksAreEntered(Apply(s, CommitCreate(c)), CommitCreate(d));
  }

  const ONE: seq<Line> := [Line(1, 1)]
  const SHOP := Opening(map[1 := 10], map[7 := 100])
  const FIRST := BeginCreate(1, 7, ONE, 100, PaymentMethod.Wallet, false)
  const SECOND := BeginCreate(2, 7, ONE, 100, PaymentMethod.Wallet, false)
  const PLACING := Creating(7, ONE, 100, PaymentMethod.Wallet, Split(100, 0), 0)

  /** Two orders that both read a wallet of 100 before either pays leave it at minus 100. */
  lemma TwoOrdersOverdraw()
    ensures Balance(Run(SHOP, [] + [FIRST] + [SECOND] + [CommitCreate(1)] + [CommitCreate(2)]).books, 7) == -100
  {
    RunAppend(SHOP, [], FIRST);
    RunAppend(SHOP, [] + [FIRST], SECOND);
    RunAppend(SHOP, [] + [FIRST] + [SECOND], CommitCreate(1));
    RunAppend(SHOP, [] + [FIRST] + [SECOND] + [CommitCreate(1)], CommitCreate(2));
    BothReadState();
    ReserveOne(SHOP.stock, 1, 1);
    ReserveOne(SHOP.stock[1 := 9], 1, 1);
    BothAreTaken(SHOP.(calls := map[1 := PLACING, 2 := PLACING]), 1, 2);
  }

  lemma BothReadState()
    ensures Apply(Apply(SHOP, FIRST), SECOND) == SHOP.(calls := map[1 := PLACING, 2 := PLACING])
  {
    assert Apply(SHOP, FIRST) == SHOP.(calls := map[1 := PLACING]);
  }

  /**
   A mixed payment from an overdrawn wallet is billed the debt on top: whatever the total, the order
   owes more than it.
   */
  lemma OverdrawnMixedOrderIsSurcharged(s: State, c: nat, user: nat, lines: seq<Line>, total: nat)
    requires c !in s.calls && lines != [] && Reserve(s.stock, lines).Some? && Balance(s.books, user) < 0
    ensures var t := Apply(Apply(s, BeginCreate(c, user, lines, total, Mixed, true)), CommitCreate(c));
            && |t.orders| == |s.orders| + 1
            && t.orders[|s.orders|].charged.gateway == total - Balance(s.books, user)
            && t.orders[|s.orders|].charged.debt == -Balance(s.books, user)
  {
    var t := Apply(s, BeginCreate(c, user, lines, total, Mixed, true));
    assert t.books == s.books;
    assert c in t.calls && t.calls[c].Creating?;
  }

  // ---------------------------------------------------------------------
  // A payment and a cancellation
  // ---------------------------------------------------------------------

  /**
   A payment confirmed between a cancellation's read and its transaction: the
   order ends up paid and cancelled, and nothing is given back.
   */
  lemma PaidMeanwhileIsNotRefunded(s: State, c: nat, d: nat)
    requires CancelTakesEffect(s, c) && !s.calls[c].seen.paid
    requires d != c && AtStage(s, d, Confirmed)
    requires s.payments[s.calls[d].payment].kind == OrderPayment(s.calls[c].order)
    ensures var t := Apply(s, Confirm(d)); var u := Apply(t, CommitCancel(c)); var o := s.calls[c].order;
            && |u.orders| == |s.orders| && t.orders[o].paid && u.orders[o].paid && u.orders[o].cancelled
            && u.books == s.books && u.payments == t.payments
  {
  }

  const BUY := BeginCreate(1, 7, ONE, 100, PaymentMethod.Gateway, true)
  const UNPAID := Order(7, ONE, 100, PaymentMethod.Gateway, PendingPayment, false, false, Charged(0, 100, Some(0), 0))
  const PLACED := SHOP.(stock := map[1 := 9], orders := [UNPAID],
      payments := [Payment(7, OrderPayment(0), 100, Pending)])
  const MEANWHILE: seq<Event> :=
    [] + [BUY] + [CommitCreate(1)] + [BeginVerifyOrder(2, 7, 0)] + [Claim(2)] + [GatewayAnswers(2, true)]
    + [BeginCancel(3, 0, Admin)]

  lemma OrderIsPlaced()
    ensures Apply(Apply(SHOP, BUY), CommitCreate(1)) == PLACED
  {
    assert Apply(SHOP, BUY) == SHOP.(calls := map[1 := Creating(7, ONE, 100, PaymentMethod.Gateway, Split(0, 100), 0)]);
    ReserveOne(SHOP.stock, 1, 1);
  }

  lemma PaymentIsClaimed()
    ensures Apply(Apply(Apply(PLACED, BeginVerifyOrder(2, 7, 0)), Claim(2)), GatewayAnswers(2, true))
         == PLACED.(payments := [Payment(7, OrderPayment(0), 100, Failed)], calls := map[2 := Verifying(0, Confirmed)])
  {
    assert LastPending(PLACED.payments, 0) == Some(0);
    assert Apply(PLACED, BeginVerifyOrder(2, 7, 0)) == PLACED.(calls := map[2 := Verifying(0, Read)]);
  }

  /** Such a moment is reached: the order of 100 is read as unpaid while its payment is about to be confirmed. */
  lemma MeanwhileHappens()
    ensures var s := Run(SHOP, MEANWHILE);
            && CancelTakesEffect(s, 3) && !s.calls[3].seen.paid && AtStage(s, 2, Confirmed)
            && s.payments[s.calls[2].payment].kind == OrderPayment(s.calls[3].order)
            && s.orders[s.calls[3].order].total == 100
  {
    RunAppend(SHOP, [], BUY);
    RunAppend(SHOP, [] + [BUY], CommitCreate(1));
    var es := [] + [BUY] + [CommitCreate(1)];
    RunAppend(SHOP, es, BeginVerifyOrder(2, 7, 0));
    RunAppend(SHOP, es + [BeginVerifyOrder(2, 7, 0)], Claim(2));
    RunAppend(SHOP, es + [BeginVerifyOrder(2, 7, 0)] + [Claim(2)], GatewayAnswers(2, true));
    var verified := es + [BeginVerifyOrder(2, 7, 0)] + [Claim(2)] + [GatewayAnswers(2, true)];
    RunAppend(SHOP, verified, BeginCancel(3, 0, Admin));
    OrderIsPlaced();
    PaymentIsClaimed();
    ReserveOne(PLACED.stock, 1, 1);
  }

  /**
   A payment confirmed after the cancellation brings the order back to
   processing although its goods are on the shelf again, and owes nothing back.
   */
  lemma PaidAfterwardsIsRevived(s: State, d: nat)
    requires AtStage(s, d, Confirmed) && s.payments[s.calls[d].payment].kind.OrderPayment?
    requires var o := s.payments[s.calls[d].payment].kind.order; o < |s.orders| && s.orders[o].cancelled
    ensures var t := Apply(s, Confirm(d)); var o := s.payments[s.calls[d].payment].kind.order;
            && |t.orders| == |s.orders| && t.orders[o].status.Processing? && t.orders[o].paid && t.orders[o].cancelled
            && t.books == s.books && t.stock == s.stock
            && forall v :: Held(t.orders, v) == Held(s.orders, v)
  {
    var o := s.payments[s.calls[d].payment].kind.order;
    var order := s.orders[o].(status := Processing, paid := true);
    forall v
      ensures Held(Apply(s, Confirm(d)).orders, v) == Held(s.orders, v)
    {
      HeldUpdate(s.orders, o, order, v);
    }
  }

  /**
   What brings a cancelled order back: the confirmation of its own payment, a status
   written by hand, a return asked for, or a return closed or rejected.
   */
  predicate Reopens(s: State, e: Event, o: nat) {
    match e
    case Confirm(c) => AtStage(s, c, Confirmed) && s.payments[s.calls[c].payment].kind == OrderPayment(o)
    case WriteStatus(order, status) => order == o && !status.Cancelled?
    case CommitAskReturn(c) => c in s.calls && s.calls[c].AskingReturn? && s.calls[c].order == o
    case CommitReturn(c) =>
      && ReturnTakesEffect(s, c) && s.sentBack[s.calls[c].ret].order == o
      && ((s.calls[c].target.PaidBack? && s.sentBack[s.calls[c].ret].item.None?)
          || (s.calls[c].target.Rejected? && s.calls[c].seenStatus.ReturnRequested?))
    case _ => false
  }

  /** Exactly then a cancelled order leaves that status. */
  lemma LeavesCancelledIff(s: State, e: Event, o: nat)
    requires o < |s.orders| && s.orders[o].cancelled && s.orders[o].status.Cancelled?
    ensures o < |Apply(s, e).orders|
    ensures !Apply(s, e).orders[o].status.Cancelled? <==> Reopens(s, e, o)
  {
    if !MovesGoods(e) {
      OthersLeaveGoods(s, e);
    } else {
      match e
      case CommitCreate(_) =>
      case CommitCancel(_) =>
      case CommitReturn(c) => ReturnLeavesCancelledIff(s, c, o);
      case Confirm(_) =>
      case CommitAskReturn(_) =>
      case WriteStatus(_, _) =>
    }
  }

  lemma ReturnLeavesCancelledIff(s: State, c: nat, o: nat)
    requires o < |s.orders| && s.orders[o].status.Cancelled?
    ensures o < |Apply(s, CommitReturn(c)).orders|
    ensures !Apply(s, CommitReturn(c)).orders[o].status.Cancelled? <==> Reopens(s, CommitReturn(c), o)
  {
    if ReturnUnderWay(s, c) {
      assert Restock(s.stock, []) == Some(s.stock);
    }
  }

  /** That moment is reached too, when the cancellation of the same run commits first. */
  lemma AfterwardsHappens()
    ensures var s := Run(SHOP, MEANWHILE + [CommitCancel(3)]);
            && AtStage(s, 2, Confirmed) && s.payments[s.calls[2].payment].kind.OrderPayment?
            && s.payments[s.calls[2].payment].kind.order < |s.orders|
            && s.orders[s.payments[s.calls[2].payment].kind.order].cancelled
  {
    MeanwhileHappens();
    RunAppend(SHOP, MEANWHILE, CommitCancel(3));
  }
}
