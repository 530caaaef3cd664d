/** The shop when requests run one at a time: no overdraft, and every refund is exact. */
module ShopSerial {
  import opened Options
  import opened Along
  import opened Checkout
  import opened Shop
  import opened ShopStock
  import opened ShopWallets
  import opened ShopPayments
  import opened ShopRefunds

  /** The first step of a request. */
  predicate Starts(e: Event) {
    || e.BeginCreate? || e.BeginCancel? || e.InitiateCharge? || e.BeginVerifyCharge? || e.BeginVerifyOrder?
    || e.BeginWithdraw? || e.BeginReview? || e.BeginAskReturn? || e.BeginReturn? || e.WriteStatus?
  }

  /** No request starts while another is under way. */
  ghost predicate OneAtATime(s: State, es: seq<Event>) {
    forall i | 0 <= i < |es| && Starts(es[i]) :: Run(s, es[..i]).calls == map[]
  }

  ghost predicate Single(calls: map<nat, Call>) {
    forall c, d | c in calls && d in calls :: c == d
  }

  /** What the request under way has read still holds. */
  ghost predicate UpToDate(s: State, call: Call) {
    match call
    case Creating(user, _, _, _, split, debt) => Part(split.wallet) <= Part(Balance(s.books, user)) && debt == 0
    case Cancelling(o, seen) => o < |s.orders| && seen == s.orders[o]
    case Reviewing(w, _, covered) =>
      covered ==> w < |s.withdrawals| && s.withdrawals[w].amount <= Part(Balance(s.books, s.withdrawals[w].user))
    case _ => true
  }

  ghost predicate NoOverdraft(b: Books) {
    forall u: nat :: Balance(b, u) >= 0
  }

  ghost predicate NoDebt(s: State) {
    forall o | 0 <= o < |s.orders| :: s.orders[o].charged.debt == 0
  }

  ghost predicate Calm(s: State) {
    && Single(s.calls)
    && (forall c | c in s.calls :: UpToDate(s, s.calls[c]))
    && NoOverdraft(s.books)
    && NoDebt(s)
  }

  /** A start leaves at most its own request; any other step leaves at most the one there was. */
  lemma CallsStaySingle(s: State, e: Event)
    requires Single(s.calls) && (Starts(e) ==> s.calls == map[])
    ensures Single(Apply(s, e).calls)
  {
    if Finishes(e) {
      FinishersOnlyEnd(s, e);
    }
  }

  /** While a request waits unchanged, nothing it has read changes. */
  lemma WaitingSeesNoChange(s: State, e: Event, c: nat)
    requires Single(s.calls) && !Starts(e) && c in s.calls && c in Apply(s, e).calls
    requires Apply(s, e).calls[c] == s.calls[c] && !s.calls[c].Verifying?
    ensures var s' := Apply(s, e); s'.books == s.books && s'.orders == s.orders && s'.withdrawals == s.withdrawals
  {
    if Finishes(e) {
      FinishersOnlyEnd(s, e);
    }
  }

  lemma NewCreationIsUpToDate(
    s: State, c: nat, user: nat, lines: seq<Line>, total: nat, pay: PaymentMethod, hasGateway: bool)
    requires NoOverdraft(s.books)
    requires c !in s.calls && c in StartCreate(s, c, user, lines, total, pay, hasGateway).calls
    ensures UpToDate(StartCreate(s, c, user, lines, total, pay, hasGateway),
        StartCreate(s, c, user, lines, total, pay, hasGateway).calls[c])
  {
    assert Balance(s.books, user) >= 0;
    if !pay.FreightCollect? {
      SplitCovers(pay, if UsesWallet(pay) then Balance(s.books, user) else 0, total, hasGateway);
    }
  }

  lemma NewReadIsUpToDate(s: State, e: Event, c: nat)
    requires Calm(s) && c in Apply(s, e).calls
    requires c in s.calls ==> Apply(s, e).calls[c] != s.calls[c]
    ensures UpToDate(Apply(s, e), Apply(s, e).calls[c])
  {
    if Finishes(e) {
      FinishersOnlyEnd(s, e);
    } else if e.BeginCreate? && e.c == c && c !in s.calls {
      NewCreationIsUpToDate(s, c, e.user, e.lines, e.total, e.pay, e.hasGateway);
    } else {
      OtherReadIsUpToDate(s, e, c);
    }
  }

  /** The other requests that read what may change: a cancellation, a review and its check. */
  lemma OtherReadIsUpToDate(s: State, e: Event, c: nat)
    requires !Finishes(e) && !(e.BeginCreate? && e.c == c && c !in s.calls)
    requires c in Apply(s, e).calls && (c in s.calls ==> Apply(s, e).calls[c] != s.calls[c])
    ensures UpToDate(Apply(s, e), Apply(s, e).calls[c])
  {
    match e
    case BeginCancel(_, _, _) =>
    case BeginReview(_, _, _) =>
    case CheckBalance(_) =>
    case BeginCreate(_, _, _, _, _, _) =>
    case Claim(_) =>
    case GatewayAnswers(_, _) =>
    case _ =>
  }

  lemma EnterKeepsNoOverdraft(b: Books, entry: Entry)
    requires NoOverdraft(b)
    requires entry.Row? || entry.OpenAndRow? ==> Balance(b, entry.row.user) + Signed(entry.row) >= 0
    ensures NoOverdraft(Enter(b, entry))
  {
    var b' := Enter(b, entry);
    forall u: nat
      ensures Balance(b', u) >= 0
    {
      assert Balance(b, u) >= 0;
    }
  }

  /** What goes out of a wallet is covered by it. */
  lemma EntryIsCovered(s: State, e: Event)
    requires Calm(s)
    ensures var entry := EntryOf(s, e);
            entry.Row? || entry.OpenAndRow? ==> Balance(s.books, entry.row.user) + Signed(entry.row) >= 0
  {
    var entry := EntryOf(s, e);
    if entry.Row? || entry.OpenAndRow? {
      assert Balance(s.books, entry.row.user) >= 0;
      if e.CommitCreate? || e.CommitReview? {
        assert UpToDate(s, s.calls[e.c]);
      }
    }
  }

  /**
   In any state: a step overdraws the wallet of `u` iff the row it writes is of `u` and not covered at
   that moment.
   */
  lemma OverdrawsIff(s: State, e: Event, u: nat)
    ensures var entry := EntryOf(s, e);
            Balance(s.books, u) >= 0 > Balance(Apply(s, e).books, u) <==>
              && (entry.Row? || entry.OpenAndRow?) && entry.row.user == u
              && 0 <= Balance(s.books, u) < -Signed(entry.row)
  {
    BooksAreEntered(s, e);
  }

  /** So the first overdraft of all is a row that is not covered. */
  lemma FirstOverdraftIff(s: State, e: Event)
    requires NoOverdraft(s.books)
    ensures var entry := EntryOf(s, e);
            !NoOverdraft(Apply(s, e).books) <==>
              (entry.Row? || entry.OpenAndRow?) && Balance(s.books, entry.row.user) + Signed(entry.row) < 0
  {
    var entry := EntryOf(s, e);
    forall u: nat
      ensures Balance(Apply(s, e).books, u) < 0 <==>
                (entry.Row? || entry.OpenAndRow?) && entry.row.user == u && Balance(s.books, u) + Signed(entry.row) < 0
    {
      assert Balance(s.books, u) >= 0;
      OverdrawsIff(s, e, u);
    }
  }

  /** The row that event number `i` writes, if it writes one, is covered when it is written. */
  predicate CoveredAt(s: State, es: seq<Event>, i: nat)
    requires i < |es|
  {
    var before := Run(s, es[..i]);
    var entry := EntryOf(before, es[i]);
    entry.Row? || entry.OpenAndRow? ==> Balance(before.books, entry.row.user) + Signed(entry.row) >= 0
  }

  ghost predicate WithinAt(s: State, es: seq<Event>, i: nat)
    requires i <= |es|
  {
    NoOverdraft(Run(s, es[..i]).books)
  }

  /**
   Over whole runs, however interleaved: no wallet is ever overdrawn if and only if every row is
   covered when it is written.
   */
  lemma {:induction false} NeverOverdrawnIff(stock: Stock, wallets: map<nat, int>, es: seq<Event>)
    requires OpenBalances(wallets)
    ensures (forall i | 0 <= i <= |es| :: WithinAt(Opening(stock, wallets), es, i))
       <==> forall i | 0 <= i < |es| :: CoveredAt(Opening(stock, wallets), es, i)
  {
    var s := Opening(stock, wallets);
    var n := |es|;
    var holds := (i: nat) => i <= n && WithinAt(s, es, i);
    var keeps := (i: nat) => i < n && CoveredAt(s, es, i);
    forall i: nat | i < n && holds(i)
      ensures holds(i + 1) <==> keeps(i)
    {
      RunStep(s, es, i);
      FirstOverdraftIff(Run(s, es[..i]), es[i]);
    }
    assert es[..0] == [] && holds(0);
    AllAlongIff(holds, keeps, n);
    assert forall i | 0 <= i <= n :: WithinAt(s, es, i) <==> holds(i);
    assert forall i | 0 <= i < n :: CoveredAt(s, es, i) <==> keeps(i);
  }

  lemma ApplyKeepsNoDebt(s: State, e: Event)
    requires Calm(s)
    ensures NoDebt(Apply(s, e))
  {
    ApplyGrowsOrders(s, e);
    forall o | 0 <= o < |Apply(s, e).orders|
      ensures Apply(s, e).orders[o].charged.debt == 0
    {
      if o >= |s.orders| {
        OrdersComeFrom(s, e, o);
        assert UpToDate(s, s.calls[e.c]);
      }
    }
  }

  lemma ApplyKeepsCalm(s: State, e: Event)
    requires Calm(s) && (Starts(e) ==> s.calls == map[])
    ensures Calm(Apply(s, e))
  {
    var s' := Apply(s, e);
    CallsStaySingle(s, e);
    ApplyKeepsNoDebt(s, e);
    BooksAreEntered(s, e);
    EntryIsCovered(s, e);
    EnterKeepsNoOverdraft(s.books, EntryOf(s, e));
    forall c | c in s'.calls
      ensures UpToDate(s', s'.calls[c])
    {
      if c in s.calls && s'.calls[c] == s.calls[c] {
        if !s.calls[c].Verifying? {
          WaitingSeesNoChange(s, e, c);
          assert UpToDate(s, s.calls[c]);
        }
      } else {
        NewReadIsUpToDate(s, e, c);
      }
    }
  }

  // ---------------------------------------------------------------------
  // One at a time
  // ---------------------------------------------------------------------

  ghost predicate OpenBalances(wallets: map<nat, int>) {
    forall u | u in wallets :: wallets[u] >= 0
  }

  lemma {:induction false} SerialRunIsCalm(stock: Stock, wallets: map<nat, int>, es: seq<Event>)
    requires OpenBalances(wallets) && OneAtATime(Opening(stock, wallets), es)
    ensures Calm(Run(Opening(stock, wallets), es))
  {
    if es != [] {
      var n := |es| - 1;
      assert forall i | 0 <= i < n :: es[..n][..i] == es[..i];
      SerialRunIsCalm(stock, wallets, es[..n]);
      ApplyKeepsCalm(Run(Opening(stock, wallets), es[..n]), es[n]);
    }
  }

  /** With one request at a time no wallet is ever overdrawn. */
  lemma {:induction false} SerialBalancesStayCovered(stock: Stock, wallets: map<nat, int>, es: seq<Event>, u: nat)
    requires OpenBalances(wallets) && OneAtATime(Opening(stock, wallets), es)
    ensures Balance(Run(Opening(stock, wallets), es).books, u) >= 0
  {
    SerialRunIsCalm(stock, wallets, es);
  }

  /**
   And then a cancellation gives back exactly the total of an order that was paid, and nothing for one
   that was not.
   */
  lemma {:induction false} SerialCancellationRefundsTotal(stock: Stock, wallets: map<nat, int>, es: seq<Event>, c: nat)
    requires OpenBalances(wallets) && OneAtATime(Opening(stock, wallets), es)
    requires CancelTakesEffect(Run(Opening(stock, wallets), es), c)
    ensures var s := Run(Opening(stock, wallets), es); var s' := Apply(s, CommitCancel(c));
            var order := s.orders[s.calls[c].order];
            && |s.books.rows| <= |s'.books.rows| && |s.payments| <= |s'.payments|
            && BackToWallet(s, s') + OwedByGateway(s, s') == (if order.paid then order.total else 0)
  {
    SerialRunIsCalm(stock, wallets, es);
    CancellationRefunds(stock, wallets, es, c);
    var s := Run(Opening(stock, wallets), es);
    assert UpToDate(s, s.calls[c]);
  }
}
