/** Which payments can still succeed: a claim that ends without its confirmation is final. */
module ShopClaims {
  import opened Options
  import opened Shop
  import opened ShopStock
  import opened ShopPayments
  import opened ShopRefunds
  import opened ShopRaces

  predicate Succeeded(s: State, p: nat) {
    p < |s.payments| && s.payments[p].status.Success?
  }

  ghost predicate Held(s: State, p: nat) {
    exists c: nat :: Holds(s, c, p)
  }

  /** Claimed once, not confirmed, and nobody works on it any more. */
  ghost predicate Lost(s: State, p: nat) {
    p < |s.payments| && s.payments[p].status.Failed? && !Held(s, p)
  }

  /** A note of a refund owed is a payment row too, but nothing ever verifies it. */
  ghost predicate CanSucceed(s: State, p: nat)
    requires p < |s.payments|
  {
    Succeeded(s, p) || Held(s, p) || (s.payments[p].status.Pending? && !s.payments[p].kind.OrderRefund?)
  }

  /** Only charges and order payments are verified. */
  ghost predicate VerifiesFit(s: State) {
    forall c | c in s.calls && s.calls[c].Verifying? ::
      s.calls[c].payment < |s.payments| && !s.payments[s.calls[c].payment].kind.OrderRefund?
  }

  lemma ApplyKeepsVerifies(s: State, e: Event)
    requires VerifiesFit(s) && ClaimsFit(s)
    ensures VerifiesFit(Apply(s, e))
  {
    ApplyGrowsPayments(s, e);
    if Finishes(e) {
      FinishersOnlyEnd(s, e);
    }
  }

  lemma {:induction false} RunVerifies(stock: Stock, wallets: map<nat, int>, es: seq<Event>)
    ensures VerifiesFit(Run(Opening(stock, wallets), es))
  {
    if es != [] {
      var s := Run(Opening(stock, wallets), es[..|es| - 1]);
      RunVerifies(stock, wallets, es[..|es| - 1]);
      PaymentsFit(stock, wallets, es[..|es| - 1]);
      ApplyKeepsVerifies(s, es[|es| - 1]);
    }
  }

  // ---------------------------------------------------------------------
  // What can no longer succeed never does
  // ---------------------------------------------------------------------

  lemma ApplyKeepsUnable(s: State, e: Event, p: nat)
    requires ClaimsFit(s) && VerifiesFit(s) && p < |s.payments| && !CanSucceed(s, p)
    ensures p < |Apply(s, e).payments| && !CanSucceed(Apply(s, e), p)
  {
    PaymentsChange(s, e);
    ApplyGrowsPayments(s, e);
    forall c: nat
      ensures !Holds(Apply(s, e), c, p)
    {
      if Holds(Apply(s, e), c, p) {
        HoldersComeFrom(s, e, c, p);
        ClaimNeedsVerifiable(s, e, p);
      }
    }
    if e.Confirm? && AtStage(s, e.c, Confirmed) {
      assert Holds(s, e.c, s.calls[e.c].payment);
    }
  }

  lemma ClaimNeedsVerifiable(s: State, e: Event, p: nat)
    requires VerifiesFit(s) && p < |s.payments|
    requires e.Claim? && ChangeOf(s, e) == Set(p, Failed)
    ensures s.payments[p].status.Pending? && !s.payments[p].kind.OrderRefund?
  {
  }

  lemma {:induction false} UnableStays(stock: Stock, wallets: map<nat, int>, es: seq<Event>, more: seq<Event>, p: nat)
    requires var s := Run(Opening(stock, wallets), es); p < |s.payments| && !CanSucceed(s, p)
    ensures var t := Run(Opening(stock, wallets), es + more); p < |t.payments| && !CanSucceed(t, p)
  {
    if more == [] {
      assert es + more == es;
    } else {
      var n := |more| - 1;
      var before := es + more[..n];
      UnableStays(stock, wallets, es, more[..n], p);
      PaymentsFit(stock, wallets, before);
      RunVerifies(stock, wallets, before);
      assert es + more == before + [more[n]];
      RunAppend(Opening(stock, wallets), before, more[n]);
      ApplyKeepsUnable(Run(Opening(stock, wallets), before), more[n], p);
    }
  }

  // ---------------------------------------------------------------------
  // What can still succeed has a run that does
  // ---------------------------------------------------------------------

  lemma RunOne(s: State, e: Event)
    ensures Run(s, [e]) == Apply(s, e)
  {
    assert [e][..0] == [];
  }

  lemma {:induction false} RunInTwo(s: State, es: seq<Event>, more: seq<Event>)
    ensures Run(s, es + more) == Run(Run(s, es), more)
  {
    if more == [] {
      assert es + more == es;
    } else {
      var n := |more| - 1;
      assert (es + more)[..|es + more| - 1] == es + more[..n];
      RunInTwo(s, es, more[..n]);
    }
  }

  lemma ConfirmSucceeds(s: State, c: nat, p: nat)
    requires AtStage(s, c, Confirmed) && s.calls[c].payment == p
    ensures Succeeded(Apply(s, Confirm(c)), p)
  {
  }

  /** A held claim still leads to success. */
  lemma HeldSucceeds(s: State, c: nat, p: nat) returns (more: seq<Event>)
    requires Holds(s, c, p) && p < |s.payments|
    ensures Succeeded(Run(s, more), p)
  {
    if s.calls[c].stage.Confirmed? {
      ConfirmSucceeds(s, c, p);
      RunOne(s, Confirm(c));
      more := [Confirm(c)];
    } else {
      var t := Apply(s, GatewayAnswers(c, true));
      ConfirmSucceeds(t, c, p);
      RunOne(s, GatewayAnswers(c, true));
      RunOne(t, Confirm(c));
      RunInTwo(s, [GatewayAnswers(c, true)], [Confirm(c)]);
      more := [GatewayAnswers(c, true)] + [Confirm(c)];
    }
  }

  lemma {:induction false} AboveAll(ids: set<nat>) returns (c: nat)
    ensures forall d <- ids :: d < c
  {
    if ids == {} {
      c := 0;
    } else {
      var d :| d in ids;
      var c' := AboveAll(ids - {d});
      assert forall x <- ids :: x == d || x in ids - {d};
      c := if c' > d then c' else d + 1;
    }
  }

  lemma {:induction false} LastPendingIs(payments: seq<Payment>, o: nat, p: nat)
    requires p < |payments| && payments[p].kind == OrderPayment(o) && payments[p].status.Pending?
    requires forall q | 0 <= q < |payments| && payments[q].kind == OrderPayment(o) :: q == p
    ensures LastPending(payments, o) == Some(p)
  {
    var n := |payments| - 1;
    if p < n {
      LastPendingIs(payments[..n], o, p);
    }
  }

  /** A pending payment of an order can be read by a new request. */
  lemma OrderPaymentIsRead(s: State, c: nat, p: nat)
    requires MoneyFits(s) && c !in s.calls
    requires p < |s.payments| && s.payments[p].status.Pending? && s.payments[p].kind.OrderPayment?
    ensures var o := s.payments[p].kind.order;
            o < |s.orders| && Apply(s, BeginVerifyOrder(c, s.orders[o].user, o)) == Put(s, c, Verifying(p, Read))
  {
    var o := s.payments[p].kind.order;
    assert NamedByOrder(s, p);
    forall q | 0 <= q < |s.payments| && s.payments[q].kind == OrderPayment(o)
      ensures q == p
    {
      assert NamedByOrder(s, q);
    }
    LastPendingIs(s.payments, o, p);
  }

  /** A pending payment can be claimed by a new request. */
  lemma PendingIsClaimed(s: State, p: nat) returns (more: seq<Event>, c: nat)
    requires MoneyFits(s) && p < |s.payments|
    requires s.payments[p].status.Pending? && !s.payments[p].kind.OrderRefund?
    ensures Holds(Run(s, more), c, p) && p < |Run(s, more).payments|
  {
    c := AboveAll(s.calls.Keys);
    assert c !in s.calls;
    var start;
    if s.payments[p].kind.WalletCharge? {
      start := BeginVerifyCharge(c, s.payments[p].user, p);
    } else {
      OrderPaymentIsRead(s, c, p);
      var o := s.payments[p].kind.order;
      start := BeginVerifyOrder(c, s.orders[o].user, o);
    }
    var read := Put(s, c, Verifying(p, Read));
    assert Apply(s, start) == read;
    RunOne(s, start);
    RunOne(read, Claim(c));
    RunInTwo(s, [start], [Claim(c)]);
    more := [start] + [Claim(c)];
  }

  /**
   Exactly: in some continuation of a run a payment is successful if and only if it is
   so now, or its claim is held, or it is pending and no note of a refund. A payment
   that is failed and held by nobody is lost, whatever the gateway had answered.
   */
  lemma {:induction false} SucceedsInTheEndIff(stock: Stock, wallets: map<nat, int>, es: seq<Event>, p: nat)
    requires p < |Run(Opening(stock, wallets), es).payments|
    ensures (exists more: seq<Event> :: Succeeded(Run(Opening(stock, wallets), es + more), p))
       <==> CanSucceed(Run(Opening(stock, wallets), es), p)
  {
    var init := Opening(stock, wallets);
    var s := Run(init, es);
    if !CanSucceed(s, p) {
      forall more: seq<Event>
        ensures !Succeeded(Run(init, es + more), p)
      {
        UnableStays(stock, wallets, es, more, p);
      }
    } else {
      var more := Succeeding(stock, wallets, es, p);
      assert Succeeded(Run(init, es + more), p);
    }
  }

  lemma Succeeding(stock: Stock, wallets: map<nat, int>, es: seq<Event>, p: nat) returns (more: seq<Event>)
    requires var s := Run(Opening(stock, wallets), es); p < |s.payments| && CanSucceed(s, p)
    ensures Succeeded(Run(Opening(stock, wallets), es + more), p)
  {
    var s := Run(Opening(stock, wallets), es);
    more := [];
    if Succeeded(s, p) {
      assert es + more == es;
    } else {
      more := SucceedingFrom(stock, wallets, es, p);
      RunInTwo(Opening(stock, wallets), es, more);
    }
  }

  lemma SucceedingFrom(stock: Stock, wallets: map<nat, int>, es: seq<Event>, p: nat) returns (more: seq<Event>)
    requires var s := Run(Opening(stock, wallets), es); p < |s.payments| && CanSucceed(s, p) && !Succeeded(s, p)
    ensures Succeeded(Run(Run(Opening(stock, wallets), es), more), p)
  {
    var s := Run(Opening(stock, wallets), es);
    if Held(s, p) {
      var c: nat :| Holds(s, c, p);
      more := HeldSucceeds(s, c, p);
    } else {
      RunKeepsMoney(stock, wallets, es);
      var first, c := PendingIsClaimed(s, p);
      var rest := HeldSucceeds(Run(s, first), c, p);
      RunInTwo(s, first, rest);
      more := first + rest;
    }
  }

  // ---------------------------------------------------------------------
  // How a payment is lost
  // ---------------------------------------------------------------------

  /** The request that holds the claim ends without its confirmation: the gateway said no, or the process died. */
  predicate LetsGo(s: State, e: Event, c: nat, p: nat) {
    Holds(s, c, p) && (e == Drop(c) || (e == GatewayAnswers(c, false) && s.calls[c].stage.Claimed?))
  }

  lemma HolderStays(s: State, e: Event, c: nat, p: nat)
    requires Holds(s, c, p) && p < |s.payments| && !LetsGo(s, e, c, p) && e != Confirm(c)
    ensures Holds(Apply(s, e), c, p)
  {
    if Finishes(e) {
      FinishersOnlyEnd(s, e);
      match e
      case CommitCreate(_) =>
      case CommitCancel(_) =>
      case Confirm(_) =>
      case CommitReview(_) =>
      case CommitReturn(_) =>
      case _ =>
    }
  }

  lemma BecomesLostIff(s: State, e: Event, p: nat)
    requires ClaimsFit(s) && p < |s.payments| && !Lost(s, p)
    ensures Lost(Apply(s, e), p) <==> exists c: nat :: LetsGo(s, e, c, p)
  {
    PaymentsChange(s, e);
    ApplyGrowsPayments(s, e);
    if c: nat :| LetsGo(s, e, c, p) {
      LetGoIsLost(s, e, c, p);
    } else if Held(s, p) {
      var c: nat :| Holds(s, c, p);
      assert !LetsGo(s, e, c, p);
      if e == Confirm(c) {
        ConfirmedIsNotLost(s, c, p);
      } else {
        HolderStays(s, e, c, p);
      }
    } else {
      UnclaimedIsNotLost(s, e, p);
    }
  }

  lemma LetGoIsLost(s: State, e: Event, c: nat, p: nat)
    requires ClaimsFit(s) && LetsGo(s, e, c, p)
    ensures Lost(Apply(s, e), p)
  {
    forall d: nat
      ensures !Holds(Apply(s, e), d, p)
    {
      if Holds(Apply(s, e), d, p) {
        HoldersComeFrom(s, e, d, p);
      }
    }
  }

  lemma ConfirmedIsNotLost(s: State, c: nat, p: nat)
    requires ClaimsFit(s) && Holds(s, c, p)
    ensures !Lost(Apply(s, Confirm(c)), p)
  {
    if s.calls[c].stage.Claimed? {
      assert Apply(s, Confirm(c)) == s;
      assert Held(s, p);
    }
  }

  lemma UnclaimedIsNotLost(s: State, e: Event, p: nat)
    requires ClaimsFit(s) && p < |s.payments| && !s.payments[p].status.Failed?
    ensures !Lost(Apply(s, e), p)
  {
    PaymentsChange(s, e);
    if ChangeOf(s, e) == Set(p, Failed) {
      assert Holds(Apply(s, e), e.c, p);
    }
  }

  /**
   A run that gets there: the gateway has said yes to the payment of an order, and the process dies
   before confirming it.
   */
  lemma LostAfterTheGatewaySaidYes()
    ensures var s := Run(SHOP, MEANWHILE);
            && AtStage(s, 2, Confirmed) && Lost(Run(SHOP, MEANWHILE + [Drop(2)]), s.calls[2].payment)
  {
    var s := Run(SHOP, MEANWHILE);
    MeanwhileHappens();
    PaymentsFit(map[1 := 10], map[7 := 100], MEANWHILE);
    RunAppend(SHOP, MEANWHILE, Drop(2));
    LetGoIsLost(s, Drop(2), 2, s.calls[2].payment);
  }
}
