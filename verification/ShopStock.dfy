/** Stock over all runs of the shop: never negative, and every piece is accounted for. */
module ShopStock {
  import opened Options
  import opened Checkout
  import opened Shop

  function Quantity(lines: seq<Line>, v: nat): nat {
    if lines == [] then 0
    else
      var last := lines[|lines| - 1];
      Quantity(lines[..|lines| - 1], v) + (if last.variant == v then last.quantity else 0)
  }

  /** What an order holds back: everything, until its cancellation row exists. */
  function HeldBy(order: Order, v: nat): nat {
    if order.cancelled then 0 else Quantity(order.lines, v)
  }

  function Held(orders: seq<Order>, v: nat): nat {
    if orders == [] then 0 else Held(orders[..|orders| - 1], v) + HeldBy(orders[|orders| - 1], v)
  }

  ghost predicate NonNegative(stock: Stock) {
    forall v | v in stock :: stock[v] >= 0
  }

  /** `m` is `stock` less the lines, variant by variant. */
  ghost predicate Less(m: Stock, stock: Stock, lines: seq<Line>) {
    m.Keys == stock.Keys && forall v | v in stock :: m[v] == stock[v] - Quantity(lines, v)
  }

  // ---------------------------------------------------------------------
  // Reserving and putting back
  // ---------------------------------------------------------------------

  ghost predicate Known(stock: Stock, lines: seq<Line>) {
    forall l <- lines :: l.variant in stock
  }

  ghost predicate Enough(stock: Stock, lines: seq<Line>) {
    forall v | v in stock :: stock[v] >= Quantity(lines, v)
  }

  /** One conditional decrement after another takes exactly the lines, and works exactly when they are there. */
  lemma {:induction false} ReserveTakesTheLines(stock: Stock, lines: seq<Line>)
    requires NonNegative(stock)
    ensures Reserve(stock, lines).Some? <==> Known(stock, lines) && Enough(stock, lines)
    ensures Reserve(stock, lines).Some? ==> Less(Reserve(stock, lines).value, stock, lines)
  {
    if lines != [] {
      var n := |lines| - 1;
      assert lines == lines[..n] + [lines[n]];
      if Known(stock, lines) && Enough(stock, lines) {
        assert Known(stock, lines[..n]);
        assert forall v | v in stock :: Quantity(lines[..n], v) <= Quantity(lines, v);
      }
      ReserveTakesTheLines(stock, lines[..n]);
      if Reserve(stock, lines[..n]).Some? {
        ReserveLast(stock, lines);
      }
    }
  }

  lemma ReserveLast(stock: Stock, lines: seq<Line>)
    requires NonNegative(stock) && lines != []
    requires var init := lines[..|lines| - 1];
             && Reserve(stock, init).Some? && Known(stock, init) && Enough(stock, init)
             && Less(Reserve(stock, init).value, stock, init)
    ensures Reserve(stock, lines).Some? <==> Known(stock, lines) && Enough(stock, lines)
    ensures Reserve(stock, lines).Some? ==> Less(Reserve(stock, lines).value, stock, lines)
  {
    var n := |lines| - 1;
    var Line(v, q) := lines[n];
    assert lines == lines[..n] + [lines[n]];
    if v in stock {
      assert Known(stock, lines);
      assert Reserve(stock, lines).Some? <==> stock[v] >= Quantity(lines, v);
      assert forall u | u in stock && u != v :: Quantity(lines, u) == Quantity(lines[..n], u);
    }
  }

  lemma {:induction false} RestockAddsTheLines(stock: Stock, lines: seq<Line>)
    ensures Restock(stock, lines).Some? <==> Known(stock, lines)
    ensures Restock(stock, lines).Some? ==> Less(stock, Restock(stock, lines).value, lines)
  {
    if lines != [] {
      var n := |lines| - 1;
      assert lines == lines[..n] + [lines[n]];
      RestockAddsTheLines(stock, lines[..n]);
    }
  }

  /** Cancelling what was just reserved restores the stock, map for map. */
  lemma RestockUndoesReserve(stock: Stock, lines: seq<Line>)
    requires NonNegative(stock) && Reserve(stock, lines).Some?
    ensures Restock(Reserve(stock, lines).value, lines) == Some(stock)
  {
    var m := Reserve(stock, lines).value;
    ReserveTakesTheLines(stock, lines);
    RestockAddsTheLines(m, lines);
    assert Restock(m, lines).value == stock;
  }

  // ---------------------------------------------------------------------
  // What orders hold
  // ---------------------------------------------------------------------

  lemma HeldAppend(orders: seq<Order>, order: Order, v: nat)
    ensures Held(orders + [order], v) == Held(orders, v) + HeldBy(order, v)
  {
    assert (orders + [order])[..|orders|] == orders;
  }

  lemma {:induction false} HeldUpdate(orders: seq<Order>, o: nat, order: Order, v: nat)
    requires o < |orders|
    ensures Held(orders[o := order], v) + HeldBy(orders[o], v) == Held(orders, v) + HeldBy(order, v)
  {
    var n := |orders| - 1;
    if o < n {
      assert orders[o := order][..n] == orders[..n][o := order];
      HeldUpdate(orders[..n], o, order, v);
    } else {
      assert orders[o := order][..n] == orders[..n];
    }
  }

  lemma {:induction false} QuantityConcat(a: seq<Line>, b: seq<Line>, v: nat)
    ensures Quantity(a + b, v) == Quantity(a, v) + Quantity(b, v)
  {
    if b == [] {
      assert a + b == a;
    } else {
      var n := |b| - 1;
      assert (a + b)[..|a + b| - 1] == a + b[..n];
      QuantityConcat(a, b[..n], v);
    }
  }

  // ---------------------------------------------------------------------
  // The invariant
  // ---------------------------------------------------------------------

  /** Fixed facts of an order: only its status, payment flag and cancellation change. */
  ghost predicate SameOrder(a: Order, b: Order) {
    && a.user == b.user && a.lines == b.lines && a.total == b.total && a.pay == b.pay && a.charged == b.charged
  }

  ghost predicate SnapshotFits(s: State, call: Call) {
    call.Cancelling? ==>
      && call.order < |s.orders|
      && SameOrder(call.seen, s.orders[call.order])
      && (call.seen.paid ==> s.orders[call.order].paid)
  }

  ghost predicate Snapshots(s: State) {
    forall c | c in s.calls :: SnapshotFits(s, s.calls[c])
  }

  /** Orders are only added, and what is fixed about them stays. */
  ghost predicate OrdersGrow(s: State, s': State) {
    && |s.orders| <= |s'.orders|
    && forall o | 0 <= o < |s.orders| ::
         && SameOrder(s.orders[o], s'.orders[o])
         && (s.orders[o].paid ==> s'.orders[o].paid)
         && (s.orders[o].cancelled ==> s'.orders[o].cancelled)
  }

  /** The events that touch stock or orders. */
  predicate MovesGoods(e: Event) {
    e.CommitCreate? || e.CommitCancel? || e.CommitReturn? || e.Confirm? || e.CommitAskReturn? || e.WriteStatus?
  }

  ghost predicate SameGoods(s: State, s': State) {
    s'.stock == s.stock && s'.orders == s.orders && s'.restocked == s.restocked
  }

  lemma OthersLeaveGoods(s: State, e: Event)
    requires !MovesGoods(e)
    ensures SameGoods(s, Apply(s, e))
  {
  }

  lemma ApplyGrowsOrders(s: State, e: Event)
    ensures OrdersGrow(s, Apply(s, e))
  {
    if !MovesGoods(e) {
      OthersLeaveGoods(s, e);
    } else {
      match e
      case CommitCreate(_) =>
      case CommitCancel(_) =>
      case CommitReturn(_) =>
      case Confirm(_) =>
      case CommitAskReturn(_) =>
      case WriteStatus(_, _) =>
    }
  }

  /** A cancellation under way either was before or has just read its order. */
  lemma CancellationsComeFrom(s: State, e: Event, c: nat)
    requires c in Apply(s, e).calls && Apply(s, e).calls[c].Cancelling?
    ensures var call := Apply(s, e).calls[c];
            || (c in s.calls && s.calls[c] == call)
            || (call.order < |s.orders| && call.seen == s.orders[call.order])
  {
    if Finishes(e) {
      FinishersOnlyEnd(s, e);
    }
  }

  lemma ApplyKeepsSnapshots(s: State, e: Event)
    requires Snapshots(s)
    ensures Snapshots(Apply(s, e))
  {
    ApplyGrowsOrders(s, e);
    var calls := Apply(s, e).calls;
    forall c | c in calls && calls[c].Cancelling?
      ensures SnapshotFits(Apply(s, e), calls[c])
    {
      CancellationsComeFrom(s, e, c);
      SnapshotStays(s, Apply(s, e), c);
    }
  }

  lemma SnapshotStays(s: State, s': State, c: nat)
    requires Snapshots(s) && OrdersGrow(s, s')
    requires c in s'.calls && s'.calls[c].Cancelling?
    requires var call := s'.calls[c];
             || (c in s.calls && s.calls[c] == call)
             || (call.order < |s.orders| && call.seen == s.orders[call.order])
    ensures SnapshotFits(s', s'.calls[c])
  {
    if c in s.calls && s.calls[c] == s'.calls[c] {
      assert SnapshotFits(s, s.calls[c]);
    }
  }

  // ---------------------------------------------------------------------
  // Every piece is accounted for
  // ---------------------------------------------------------------------

  /** Stock, plus what uncancelled orders hold, is what there was plus what returns put back. */
  ghost predicate Accounted(stock: Stock, s: State) {
    && s.stock.Keys == stock.Keys
    && NonNegative(s.stock)
    && forall v | v in stock :: s.stock[v] + Held(s.orders, v) == stock[v] + Quantity(s.restocked, v)
  }

  /** Nothing moves but statuses and payment flags. */
  ghost predicate OnlyStatus(orders: seq<Order>, orders': seq<Order>) {
    && |orders'| == |orders|
    && forall o | 0 <= o < |orders| ::
         orders[o].lines == orders'[o].lines && orders[o].cancelled == orders'[o].cancelled
  }

  lemma {:induction false} StatusKeepsHeld(orders: seq<Order>, orders': seq<Order>, v: nat)
    requires OnlyStatus(orders, orders')
    ensures Held(orders', v) == Held(orders, v)
  {
    if orders != [] {
      StatusKeepsHeld(orders[..|orders| - 1], orders'[..|orders| - 1], v);
    }
  }

  lemma StatusKeepsAccounts(stock: Stock, s: State, s': State)
    requires Accounted(stock, s)
    requires s'.stock == s.stock && s'.restocked == s.restocked && OnlyStatus(s.orders, s'.orders)
    ensures Accounted(stock, s')
  {
    forall v | v in stock
      ensures Held(s'.orders, v) == Held(s.orders, v)
    {
      StatusKeepsHeld(s.orders, s'.orders, v);
    }
  }

  lemma CreateKeepsAccounts(stock: Stock, s: State, c: nat)
    requires Accounted(stock, s)
    ensures Accounted(stock, Apply(s, CommitCreate(c)))
  {
    if c in s.calls && s.calls[c].Creating? && Reserve(s.stock, s.calls[c].lines).Some? {
      var call := s.calls[c];
      ReserveTakesTheLines(s.stock, call.lines);
      var order := NewOrder(|s.payments|, call);
      forall v | v in stock
        ensures Held(s.orders + [order], v) == Held(s.orders, v) + Quantity(call.lines, v)
      {
        HeldAppend(s.orders, order, v);
      }
      assert FinishCreate(s, c).orders == s.orders + [order];
    }
  }

  predicate CancelTakesEffect(s: State, c: nat) {
    && c in s.calls && s.calls[c].Cancelling? && s.calls[c].order < |s.orders|
    && Restock(s.stock, s.calls[c].seen.lines).Some? && !s.orders[s.calls[c].order].cancelled
  }

  lemma CancelKeepsAccounts(stock: Stock, s: State, c: nat)
    requires Accounted(stock, s) && Snapshots(s)
    ensures Accounted(stock, Apply(s, CommitCancel(c)))
  {
    if CancelTakesEffect(s, c) {
      var Cancelling(o, seen) := s.calls[c];
      assert SnapshotFits(s, s.calls[c]);
      RestockAddsTheLines(s.stock, seen.lines);
      var order := s.orders[o].(status := Cancelled, cancelled := true);
      assert FinishCancel(s, c).orders == s.orders[o := order];
      forall v | v in stock
        ensures Held(s.orders[o := order], v) + Quantity(seen.lines, v) == Held(s.orders, v)
      {
        HeldUpdate(s.orders, o, order, v);
      }
    }
  }

  predicate ReturnUnderWay(s: State, c: nat) {
    && c in s.calls && s.calls[c].Returning?
    && s.calls[c].ret < |s.sentBack| && s.sentBack[s.calls[c].ret].order < |s.orders|
  }

  function LinesBack(s: State, c: nat): seq<Line>
    requires ReturnUnderWay(s, c)
  {
    var ret := s.sentBack[s.calls[c].ret];
    if s.calls[c].target.Received? then ReturnedLines(s.orders[ret.order], ret.item) else []
  }

  predicate ReturnTakesEffect(s: State, c: nat) {
    && ReturnUnderWay(s, c) && Restock(s.stock, LinesBack(s, c)).Some?
    && !(s.calls[c].target.PaidBack? && s.calls[c].refund == 0)
  }

  lemma ReturnKeepsAccounts(stock: Stock, s: State, c: nat)
    requires Accounted(stock, s)
    ensures Accounted(stock, Apply(s, CommitReturn(c)))
  {
    if ReturnTakesEffect(s, c) {
      var s' := Apply(s, CommitReturn(c));
      var lines := LinesBack(s, c);
      StatusKeepsAccounts(stock, s, s.(orders := s'.orders));
      RestockKeepsAccounts(stock, s.(orders := s'.orders), s', lines);
    }
  }

  lemma RestockKeepsAccounts(stock: Stock, s: State, s': State, lines: seq<Line>)
    requires Accounted(stock, s) && Restock(s.stock, lines) == Some(s'.stock)
    requires s'.orders == s.orders && s'.restocked == s.restocked + lines
    ensures Accounted(stock, s')
  {
    RestockAddsTheLines(s.stock, lines);
    forall v | v in stock
      ensures Quantity(s.restocked + lines, v) == Quantity(s.restocked, v) + Quantity(lines, v)
    {
      QuantityConcat(s.restocked, lines, v);
    }
  }

  lemma StatusEventKeepsAccounts(stock: Stock, s: State, e: Event)
    requires Accounted(stock, s) && (e.Confirm? || e.CommitAskReturn? || e.WriteStatus?)
    ensures Accounted(stock, Apply(s, e))
  {
    StatusKeepsAccounts(stock, s, Apply(s, e));
  }

  lemma OtherKeepsAccounts(stock: Stock, s: State, e: Event)
    requires Accounted(stock, s) && !MovesGoods(e)
    ensures Accounted(stock, Apply(s, e))
  {
    OthersLeaveGoods(s, e);
    StatusKeepsAccounts(stock, s, Apply(s, e));
  }

  lemma ApplyKeepsAccounts(stock: Stock, s: State, e: Event)
    requires Accounted(stock, s) && Snapshots(s)
    ensures Accounted(stock, Apply(s, e))
  {
    if !MovesGoods(e) {
      OtherKeepsAccounts(stock, s, e);
    } else {
      match e
      case CommitCreate(c) => CreateKeepsAccounts(stock, s, c);
      case CommitCancel(c) => CancelKeepsAccounts(stock, s, c);
      case CommitReturn(c) => ReturnKeepsAccounts(stock, s, c);
      case _ => StatusEventKeepsAccounts(stock, s, e);
    }
  }

  /**
   In every interleaving of creations, cancellations by customers, staff and expiry,
   verifications, returns and status changes: stock is never negative, and stock plus
   what orders without a cancellation row hold equals the opening stock plus what returns put back.
   */
  lemma {:induction false} StockIsConserved(stock: Stock, wallets: map<nat, int>, es: seq<Event>)
    requires NonNegative(stock)
    ensures Snapshots(Run(Opening(stock, wallets), es))
    ensures Accounted(stock, Run(Opening(stock, wallets), es))
  {
    if es != [] {
      var n := |es| - 1;
      StockIsConserved(stock, wallets, es[..n]);
      ApplyKeepsSnapshots(Run(Opening(stock, wallets), es[..n]), es[n]);
      ApplyKeepsAccounts(stock, Run(Opening(stock, wallets), es[..n]), es[n]);
    }
  }

  /** A creation fails as a whole: unless every line can be served, nothing but the request is gone. */
  lemma FailedCreateChangesNothing(s: State, c: nat)
    requires NonNegative(s.stock) && c in s.calls && s.calls[c].Creating?
    ensures var served := Known(s.stock, s.calls[c].lines) && Enough(s.stock, s.calls[c].lines);
            if served then |Apply(s, CommitCreate(c)).orders| == |s.orders| + 1
            else Apply(s, CommitCreate(c)) == s.(calls := s.calls - {c})
  {
    ReserveTakesTheLines(s.stock, s.calls[c].lines);
  }

  // ---------------------------------------------------------------------
  // At most one cancellation
  // ---------------------------------------------------------------------

  /** Event number `i` of the run puts the goods of order `o` back. */
  ghost predicate CancelledAt(stock: Stock, wallets: map<nat, int>, es: seq<Event>, i: nat, o: nat) {
    && i < |es| && es[i].CommitCancel?
    && var s := Run(Opening(stock, wallets), es[..i]);
       CancelTakesEffect(s, es[i].c) && s.calls[es[i].c].order == o
  }

  /** An order gets its cancellation row only from a cancellation that takes effect. */
  lemma CancelledComesFrom(s: State, e: Event, o: nat)
    requires o < |Apply(s, e).orders|
    ensures Apply(s, e).orders[o].cancelled
       <==> (o < |s.orders| && s.orders[o].cancelled)
            || (e.CommitCancel? && CancelTakesEffect(s, e.c) && s.calls[e.c].order == o)
  {
    if !MovesGoods(e) {
      OthersLeaveGoods(s, e);
    }
  }

  lemma CancelNeedsNoRow(s: State, c: nat)
    requires CancelTakesEffect(s, c)
    ensures s.calls[c].order < |s.orders| && !s.orders[s.calls[c].order].cancelled
    ensures |Apply(s, CommitCancel(c)).orders| == |s.orders|
  {
  }

  /** A cancellation of an order that has its row only ends the request. */
  lemma SecondCancelChangesNothing(s: State, c: nat)
    requires c in s.calls && s.calls[c].Cancelling? && s.calls[c].order < |s.orders|
        && s.orders[s.calls[c].order].cancelled
    ensures Apply(s, CommitCancel(c)) == s.(calls := s.calls - {c})
  {
  }

  lemma {:induction false} RunGrowsOrders(stock: Stock, wallets: map<nat, int>, es: seq<Event>, more: seq<Event>)
    ensures OrdersGrow(Run(Opening(stock, wallets), es), Run(Opening(stock, wallets), es + more))
  {
    if more == [] {
      assert es + more == es;
    } else {
      var n := |more| - 1;
      RunGrowsOrders(stock, wallets, es, more[..n]);
      assert (es + more)[..|es + more| - 1] == es + more[..n];
      ApplyGrowsOrders(Run(Opening(stock, wallets), es + more[..n]), more[n]);
    }
  }

  lemma RunStep(s: State, es: seq<Event>, i: nat)
    requires i < |es|
    ensures Run(s, es[..i + 1]) == Apply(Run(s, es[..i]), es[i])
  {
    assert es[..i + 1][..i] == es[..i];
  }

  /** Once an order was put back, its cancellation row is there ever after. */
  lemma CancelledStays(stock: Stock, wallets: map<nat, int>, es: seq<Event>, i: nat, o: nat, j: nat)
    requires CancelledAt(stock, wallets, es, i, o) && i < j <= |es|
    ensures var s := Run(Opening(stock, wallets), es[..j]); o < |s.orders| && s.orders[o].cancelled
  {
    var s := Run(Opening(stock, wallets), es[..i]);
    RunStep(Opening(stock, wallets), es, i);
    CancelNeedsNoRow(s, es[i].c);
    CancelledComesFrom(s, es[i], o);
    assert es[..j] == es[..i + 1] + es[i + 1..j];
    RunGrowsOrders(stock, wallets, es[..i + 1], es[i + 1..j]);
  }

  /** No order is put back by two steps of a run, however many cancellations of it interleave. */
  lemma CancelledAtMostOnce(stock: Stock, wallets: map<nat, int>, es: seq<Event>, i: nat, j: nat, o: nat)
    requires CancelledAt(stock, wallets, es, i, o) && CancelledAt(stock, wallets, es, j, o)
    ensures i == j
  {
    if i < j {
      CancelledStays(stock, wallets, es, i, o, j);
    } else if j < i {
      CancelledStays(stock, wallets, es, j, o, i);
    }
  }

  /** The step among the first `n` that put a cancelled order back. */
  lemma {:induction false} CancelledWhen(stock: Stock, wallets: map<nat, int>, es: seq<Event>, n: nat, o: nat)
    returns (i: nat)
    requires n <= |es| && o < |Run(Opening(stock, wallets), es[..n]).orders|
    requires Run(Opening(stock, wallets), es[..n]).orders[o].cancelled
    ensures CancelledAt(stock, wallets, es, i, o)
  {
    var before := Run(Opening(stock, wallets), es[..n - 1]);
    RunStep(Opening(stock, wallets), es, n - 1);
    if o < |before.orders| && before.orders[o].cancelled {
      i := CancelledWhen(stock, wallets, es, n - 1, o);
    } else {
      i := n - 1;
      CancelledComesFrom(before, es[n - 1], o);
    }
  }

  /** And the row is there exactly when some step of the run put the order back. */
  lemma {:induction false} CancelledIffPutBack(stock: Stock, wallets: map<nat, int>, es: seq<Event>, o: nat)
    requires o < |Run(Opening(stock, wallets), es).orders|
    ensures Run(Opening(stock, wallets), es).orders[o].cancelled <==> exists i :: CancelledAt(stock, wallets, es, i, o)
  {
    if i :| CancelledAt(stock, wallets, es, i, o) {
      CancelledStays(stock, wallets, es, i, o, |es|);
      assert es[..|es|] == es;
    }
    if Run(Opening(stock, wallets), es).orders[o].cancelled {
      assert es[..|es|] == es;
      var i := CancelledWhen(stock, wallets, es, |es|, o);
    }
  }
}
