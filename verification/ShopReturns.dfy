/** Returns: money back once and goods back once, and exactly which steps repeat them. */
module ShopReturns {
  import opened Options
  import opened Along
  import opened Checkout
  import opened Shop
  import opened ShopStock
  import opened ShopWallets
  import opened ShopSerial
  import opened ShopRaces

  /** The step gives return `r` a new status. */
  predicate Settles(s: State, e: Event, r: nat) {
    e.CommitReturn? && ReturnTakesEffect(s, e.c) && s.calls[e.c].ret == r
  }

  predicate PaysBack(s: State, e: Event, r: nat) {
    Settles(s, e, r) && s.calls[e.c].target.PaidBack?
  }

  predicate TakesBack(s: State, e: Event, r: nat) {
    Settles(s, e, r) && s.calls[e.c].target.Received?
  }

  /** Such a step credits the customer with the amount asked for, and writes the row. */
  lemma PayingBackCredits(s: State, e: Event, r: nat)
    requires PaysBack(s, e, r)
    ensures r < |s.sentBack| && s.sentBack[r].order < |s.orders| && s.calls[e.c].refund > 0
    ensures var o := s.sentBack[r].order; var user := s.orders[o].user; var refund := s.calls[e.c].refund;
            && Apply(s, e).books.rows == s.books.rows + [WalletRow(user, Refund, refund, OfOrder(o))]
            && Balance(Apply(s, e).books, user) == Balance(s.books, user) + refund
  {
  }

  /** And only such a step puts goods of a return back. */
  lemma TakingBackRestocks(s: State, e: Event)
    ensures Apply(s, e).restocked
         == s.restocked + (if e.CommitReturn? && ReturnTakesEffect(s, e.c) then LinesBack(s, e.c) else [])
  {
    assert s.restocked + [] == s.restocked;
    if !MovesGoods(e) {
      OthersLeaveGoods(s, e);
    }
  }

  /** How far a return has come: nothing has moved, the goods are back, the money is back. */
  function Progress(status: ReviewStatus): nat {
    match status
    case Received => 1
    case PaidBack => 2
    case _ => 0
  }

  /** Returns are added waiting and change only by their own settling. */
  lemma ReturnsChange(s: State, e: Event, r: nat)
    ensures |s.sentBack| <= |Apply(s, e).sentBack|
    ensures |s.sentBack| <= r < |Apply(s, e).sentBack| ==> Apply(s, e).sentBack[r].status.Waiting?
    ensures r < |s.sentBack| ==>
              Apply(s, e).sentBack[r]
              == (if Settles(s, e, r) then s.sentBack[r].(status := s.calls[e.c].target) else s.sentBack[r])
  {
    match e
    case CommitAskReturn(_) =>
    case CommitReturn(_) =>
    case CommitReview(_) =>
    case _ =>
  }

  // ---------------------------------------------------------------------
  // How often money and goods came back
  // ---------------------------------------------------------------------

  function TimesPaid(s: State, es: seq<Event>, r: nat): nat {
    if es == [] then 0
    else
      var n := |es| - 1;
      TimesPaid(s, es[..n], r) + (if PaysBack(Run(s, es[..n]), es[n], r) then 1 else 0)
  }

  function TimesTaken(s: State, es: seq<Event>, r: nat): nat {
    if es == [] then 0
    else
      var n := |es| - 1;
      TimesTaken(s, es[..n], r) + (if TakesBack(Run(s, es[..n]), es[n], r) then 1 else 0)
  }

  /** The counts a status stands for: paid once or never, taken back once, at most once, or never. */
  predicate Fits(status: ReviewStatus, paid: nat, taken: nat) {
    && paid == (if Progress(status) == 2 then 1 else 0)
    && taken <= (if Progress(status) == 0 then 0 else 1)
    && (Progress(status) == 1 ==> taken == 1)
  }

  ghost predicate OnceAt(s: State, es: seq<Event>, i: nat, r: nat)
    requires i <= |es|
  {
    var now := Run(s, es[..i]);
    if r < |now.sentBack| then Fits(now.sentBack[r].status, TimesPaid(s, es[..i], r), TimesTaken(s, es[..i], r))
    else TimesPaid(s, es[..i], r) == 0 && TimesTaken(s, es[..i], r) == 0
  }

  /** The step does not take the return further although goods or money were already back. */
  predicate Redoes(s: State, e: Event, r: nat) {
    && Settles(s, e, r) && r < |s.sentBack|
    && Progress(s.sentBack[r].status) > 0
    && Progress(s.calls[e.c].target) <= Progress(s.sentBack[r].status)
  }

  predicate RedoesAt(s: State, es: seq<Event>, i: nat, r: nat)
    requires i < |es|
  {
    Redoes(Run(s, es[..i]), es[i], r)
  }

  lemma FitsNextIff(status: ReviewStatus, paid: nat, taken: nat, target: ReviewStatus)
    requires Fits(status, paid, taken)
    ensures Fits(target, paid + (if target.PaidBack? then 1 else 0), taken + (if target.Received? then 1 else 0))
       <==> !(Progress(status) > 0 && Progress(target) <= Progress(status))
  {
  }

  lemma OnceNextIff(s: State, es: seq<Event>, i: nat, r: nat)
    requires i < |es| && OnceAt(s, es, i, r)
    ensures OnceAt(s, es, i + 1, r) <==> !RedoesAt(s, es, i, r)
  {
    var before := Run(s, es[..i]);
    RunStep(s, es, i);
    assert es[..i + 1][..i] == es[..i];
    ReturnsChange(before, es[i], r);
    if Settles(before, es[i], r) {
      FitsNextIff(before.sentBack[r].status, TimesPaid(s, es[..i], r), TimesTaken(s, es[..i], r),
          before.calls[es[i].c].target);
    }
  }

  /**
   Over whole runs of any interleaving: a return has been paid once if it is settled as
   REFUNDED and never otherwise, and its goods came back at most once and as its status
   says, all along, if and only if no step redoes or undoes what was settled.
   */
  lemma {:induction false} ReturnedOnceIff(stock: Stock, wallets: map<nat, int>, es: seq<Event>, r: nat)
    ensures (forall i | 0 <= i <= |es| :: OnceAt(Opening(stock, wallets), es, i, r))
       <==> forall i | 0 <= i < |es| :: !RedoesAt(Opening(stock, wallets), es, i, r)
  {
    var s := Opening(stock, wallets);
    var n := |es|;
    var holds := (i: nat) => i <= n && OnceAt(s, es, i, r);
    var keeps := (i: nat) => i < n && !RedoesAt(s, es, i, r);
    forall i: nat | i < n && holds(i)
      ensures holds(i + 1) <==> keeps(i)
    {
      OnceNextIff(s, es, i, r);
    }
    assert es[..0] == [] && holds(0);
    AllAlongIff(holds, keeps, n);
    assert forall i | 0 <= i <= n :: OnceAt(s, es, i, r) <==> holds(i);
    assert forall i | 0 <= i < n :: !RedoesAt(s, es, i, r) <==> keeps(i);
  }

  // ---------------------------------------------------------------------
  // One at a time
  // ---------------------------------------------------------------------

  /** What the guard refuses on a status. */
  predicate Refused(target: ReviewStatus, status: ReviewStatus) {
    || (target.Received? && (status.Received? || status.PaidBack?))
    || (target.PaidBack? && status.PaidBack?)
  }

  /** For every return under way the guard, asked now, would still let it pass. */
  ghost predicate ReturnsFit(s: State) {
    forall c | c in s.calls && s.calls[c].Returning? ::
      s.calls[c].ret < |s.sentBack| && !Refused(s.calls[c].target, s.sentBack[s.calls[c].ret].status)
  }

  lemma ReturningComesFrom(s: State, e: Event, c: nat)
    requires c in Apply(s, e).calls && Apply(s, e).calls[c].Returning?
    ensures var call := Apply(s, e).calls[c];
            || (c in s.calls && s.calls[c] == call)
            || (call.ret < |s.sentBack| && !Refused(call.target, s.sentBack[call.ret].status) && e.BeginReturn?)
    ensures !(e.CommitReturn? && e.c == c && ReturnUnderWay(s, c))
  {
    if Finishes(e) {
      FinishersOnlyEnd(s, e);
    }
  }

  lemma ApplyKeepsReturns(s: State, e: Event)
    requires ReturnsFit(s) && Single(s.calls) && (Starts(e) ==> s.calls == map[])
    ensures ReturnsFit(Apply(s, e))
  {
    forall c | c in Apply(s, e).calls && Apply(s, e).calls[c].Returning?
      ensures var call := Apply(s, e).calls[c];
              call.ret < |Apply(s, e).sentBack| && !Refused(call.target, Apply(s, e).sentBack[call.ret].status)
    {
      ReturningComesFrom(s, e, c);
      ReturnsChange(s, e, Apply(s, e).calls[c].ret);
    }
  }

  lemma {:induction false} SerialReturnsFit(stock: Stock, wallets: map<nat, int>, es: seq<Event>)
    requires OneAtATime(Opening(stock, wallets), es)
    ensures var s := Run(Opening(stock, wallets), es); ReturnsFit(s) && Single(s.calls)
  {
    if es != [] {
      var n := |es| - 1;
      assert forall i | 0 <= i < n :: es[..n][..i] == es[..i];
      SerialReturnsFit(stock, wallets, es[..n]);
      var s := Run(Opening(stock, wallets), es[..n]);
      CallsStaySingle(s, es[n]);
      ApplyKeepsReturns(s, es[n]);
    }
  }

  /** A settled return is set back by hand to a status before the goods were received. */
  predicate SetsBack(s: State, e: Event, r: nat) {
    && Settles(s, e, r) && r < |s.sentBack|
    && Progress(s.sentBack[r].status) > 0 && Progress(s.calls[e.c].target) == 0
  }

  predicate SetsBackAt(s: State, es: seq<Event>, i: nat, r: nat)
    requires i < |es|
  {
    SetsBack(Run(s, es[..i]), es[i], r)
  }

  lemma SerialRedoesIff(stock: Stock, wallets: map<nat, int>, es: seq<Event>, i: nat, r: nat)
    requires OneAtATime(Opening(stock, wallets), es) && i < |es|
    ensures RedoesAt(Opening(stock, wallets), es, i, r) <==> SetsBackAt(Opening(stock, wallets), es, i, r)
  {
    assert forall j | 0 <= j < i :: es[..i][..j] == es[..j];
    SerialReturnsFit(stock, wallets, es[..i]);
  }

  /** With one request at a time the same holds if and only if no settled return is set back by hand. */
  lemma {:induction false} SerialReturnedOnceIff(stock: Stock, wallets: map<nat, int>, es: seq<Event>, r: nat)
    requires OneAtATime(Opening(stock, wallets), es)
    ensures (forall i | 0 <= i <= |es| :: OnceAt(Opening(stock, wallets), es, i, r))
       <==> forall i | 0 <= i < |es| :: !SetsBackAt(Opening(stock, wallets), es, i, r)
  {
    ReturnedOnceIff(stock, wallets, es, r);
    forall i | 0 <= i < |es|
      ensures RedoesAt(Opening(stock, wallets), es, i, r) <==> SetsBackAt(Opening(stock, wallets), es, i, r)
    {
      SerialRedoesIff(stock, wallets, es, i, r);
    }
  }

  /** So then a return is paid at most once and its goods come back at most once. */
  lemma {:induction false} SerialReturnsAtMostOnce(stock: Stock, wallets: map<nat, int>, es: seq<Event>, r: nat)
    requires OneAtATime(Opening(stock, wallets), es)
    requires forall i | 0 <= i < |es| :: !SetsBackAt(Opening(stock, wallets), es, i, r)
    ensures TimesPaid(Opening(stock, wallets), es, r) <= 1 && TimesTaken(Opening(stock, wallets), es, r) <= 1
  {
    SerialReturnedOnceIff(stock, wallets, es, r);
    assert OnceAt(Opening(stock, wallets), es, |es|, r);
    assert es[..|es|] == es;
  }

  // ---------------------------------------------------------------------
  // Interleaved
  // ---------------------------------------------------------------------

  /** Two requests that both read a return before either committed both pay it back. */
  lemma BothPayBack(s: State, c: nat, d: nat, r: nat)
    requires c != d && PaysBack(s, CommitReturn(c), r) && PaysBack(s, CommitReturn(d), r)
    ensures PaysBack(Apply(s, CommitReturn(c)), CommitReturn(d), r)
    ensures var t := Apply(Apply(s, CommitReturn(c)), CommitReturn(d)); var user := s.orders[s.sentBack[r].order].user;
            Balance(t.books, user) == Balance(s.books, user) + s.calls[c].refund + s.calls[d].refund
  {
    var t := Apply(s, CommitReturn(c));
    PayingBackCredits(s, CommitReturn(c), r);
    assert Restock(t.stock, []) == Some(t.stock);
    PayingBackCredits(t, CommitReturn(d), r);
  }

  const SOLD := Order(7, ONE, 100, FreightCollect, Delivered, false, false, Charged(0, 0, None, 0))
  const RETURNED := SHOP.(stock := map[1 := 9], orders := [SOLD.(status := ReturnRequested)],
      sentBack := [Return(0, None, Waiting)])
  const SENT_BACK: seq<Event> :=
    [] + [BeginCreate(1, 7, ONE, 100, FreightCollect, false)] + [CommitCreate(1)] + [WriteStatus(0, Delivered)]
       + [BeginAskReturn(1, 7, 0, None)] + [CommitAskReturn(1)]

  lemma OrderIsSold()
    ensures Apply(Apply(Apply(SHOP, BeginCreate(1, 7, ONE, 100, FreightCollect, false)), CommitCreate(1)),
        WriteStatus(0, Delivered))
         == SHOP.(stock := map[1 := 9], orders := [SOLD])
  {
    var placing := SHOP.(calls := map[1 := Creating(7, ONE, 100, FreightCollect, Split(0, 0), 0)]);
    assert Apply(SHOP, BeginCreate(1, 7, ONE, 100, FreightCollect, false)) == placing;
    ReserveOne(SHOP.stock, 1, 1);
    assert Apply(placing, CommitCreate(1)) == SHOP.(stock := map[1 := 9], orders := [SOLD.(status := Processing)]);
  }

  lemma SoldOrderIsReturned()
    ensures Apply(Apply(SHOP.(stock := map[1 := 9], orders := [SOLD]), BeginAskReturn(1, 7, 0, None)),
        CommitAskReturn(1))
         == RETURNED
  {
    var sold := SHOP.(stock := map[1 := 9], orders := [SOLD]);
    assert Apply(sold, BeginAskReturn(1, 7, 0, None)) == Put(sold, 1, AskingReturn(0, None));
  }

  lemma {:induction false} RunFive(s: State, a: Event, b: Event, c: Event, d: Event, e: Event)
    ensures Run(s, [] + [a] + [b] + [c] + [d] + [e]) == Apply(Apply(Apply(Apply(Apply(s, a), b), c), d), e)
  {
    RunAppend(s, [], a);
    RunAppend(s, [] + [a], b);
    RunAppend(s, [] + [a] + [b], c);
    RunAppend(s, [] + [a] + [b] + [c], d);
    RunAppend(s, [] + [a] + [b] + [c] + [d], e);
  }

  lemma ReturnIsAsked()
    ensures Run(SHOP, SENT_BACK) == RETURNED
  {
    RunFive(SHOP, BeginCreate(1, 7, ONE, 100, FreightCollect, false), CommitCreate(1), WriteStatus(0, Delivered),
            BeginAskReturn(1, 7, 0, None), CommitAskReturn(1));
    OrderIsSold();
    SoldOrderIsReturned();
  }

  lemma BothRead()
    ensures var s := Apply(Apply(RETURNED, BeginReturn(2, 0, PaidBack, 100)), BeginReturn(3, 0, PaidBack, 100));
            PaysBack(s, CommitReturn(2), 0) && PaysBack(s, CommitReturn(3), 0)
  {
    var call := Returning(0, PaidBack, 100, ReturnRequested);
    var one := Put(RETURNED, 2, call);
    assert Apply(RETURNED, BeginReturn(2, 0, PaidBack, 100)) == one;
    assert Apply(one, BeginReturn(3, 0, PaidBack, 100)) == Put(one, 3, call);
    assert Restock(RETURNED.stock, []) == Some(RETURNED.stock);
  }

  /** A run that reaches two such requests for one return, of 100 each. */
  lemma BothPayBackHappens()
    ensures var s := Run(SHOP, SENT_BACK + [BeginReturn(2, 0, PaidBack, 100)] + [BeginReturn(3, 0, PaidBack, 100)]);
            PaysBack(s, CommitReturn(2), 0) && PaysBack(s, CommitReturn(3), 0)
  {
    ReturnIsAsked();
    RunAppend(SHOP, SENT_BACK, BeginReturn(2, 0, PaidBack, 100));
    RunAppend(SHOP, SENT_BACK + [BeginReturn(2, 0, PaidBack, 100)], BeginReturn(3, 0, PaidBack, 100));
    BothRead();
  }

  // ---------------------------------------------------------------------
  // Set back by hand
  // ---------------------------------------------------------------------

  /** One whole request on a return, run alone, that moves no goods. */
  lemma AloneSettles(s: State, c: nat, r: nat, target: ReviewStatus, refund: nat)
    requires c !in s.calls && r < |s.sentBack| && s.sentBack[r].order < |s.orders|
    requires !target.Received? && !Refused(target, s.sentBack[r].status) && (target.PaidBack? ==> refund > 0)
    ensures var t := Apply(s, BeginReturn(c, r, target, refund)); var u := Apply(t, CommitReturn(c));
            && Settles(t, CommitReturn(c), r) && t.calls[c].target == target
            && u.calls == s.calls && |u.orders| == |s.orders|
            && u.sentBack == s.sentBack[r := s.sentBack[r].(status := target)]
            && (target.PaidBack? ==> |u.books.rows| == |s.books.rows| + 1)
            && (!target.PaidBack? ==> u.books == s.books)
  {
    assert Restock(s.stock, []) == Some(s.stock);
    assert s.calls[c := Returning(r, target, refund, s.orders[s.sentBack[r].order].status)] - {c} == s.calls;
  }

  /** One request at a time: a return settled as REFUNDED can be set back to PENDING, and is then paid again. */
  lemma SetBackPaysAgain(s: State, c: nat, r: nat, refund: nat)
    requires s.calls == map[] && r < |s.sentBack| && s.sentBack[r].order < |s.orders|
    requires s.sentBack[r].status.PaidBack? && refund > 0
    ensures var t := Apply(s, BeginReturn(c, r, Waiting, 0)); var u := Apply(t, CommitReturn(c));
            var v := Apply(u, BeginReturn(c, r, PaidBack, refund));
            SetsBack(t, CommitReturn(c), r) && PaysBack(v, CommitReturn(c), r)
  {
    AloneSettles(s, c, r, Waiting, 0);
    var u := Apply(Apply(s, BeginReturn(c, r, Waiting, 0)), CommitReturn(c));
    AloneSettles(u, c, r, PaidBack, refund);
  }

  /** Likewise two requests that both read a return before either committed both put its goods back. */
  lemma BothTakeBack(s: State, c: nat, d: nat, r: nat)
    requires c != d && TakesBack(s, CommitReturn(c), r)
    requires d in s.calls && s.calls[d].Returning? && s.calls[d].ret == r && s.calls[d].target.Received?
    requires Restock(Apply(s, CommitReturn(c)).stock, LinesBack(s, c)).Some?
    ensures TakesBack(Apply(s, CommitReturn(c)), CommitReturn(d), r)
    ensures Apply(Apply(s, CommitReturn(c)), CommitReturn(d)).restocked == s.restocked + LinesBack(s, c)
        + LinesBack(s, c)
  {
  }
}
