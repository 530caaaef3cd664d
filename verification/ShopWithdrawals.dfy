/** Withdrawals: one debit each when requests run one at a time, and what two reviews at once do. */
module ShopWithdrawals {
  import opened Options
  import opened Along
  import opened Shop
  import opened ShopStock
  import opened ShopWallets
  import opened ShopSerial
  import opened ShopRaces

  /** Number of WITHDRAW rows written for withdrawal `w`. */
  function Debits(rows: seq<WalletRow>, w: nat): nat {
    if rows == [] then 0
    else
      var last := rows[|rows| - 1];
      Debits(rows[..|rows| - 1], w) + (if last.kind.Withdraw? && last.ref == OfWithdrawal(w) then 1 else 0)
  }

  predicate IsApproved(withdrawals: seq<Withdrawal>, w: nat) {
    w < |withdrawals| && withdrawals[w].status.Approved?
  }

  /** Approved withdrawals have exactly one WITHDRAW row, all others none. */
  ghost predicate DebitsFit(s: State) {
    forall w: nat :: Debits(s.books.rows, w) == if IsApproved(s.withdrawals, w) then 1 else 0
  }

  /** Every review under way is of a withdrawal that still waits. */
  ghost predicate ReviewsFit(s: State) {
    forall c | c in s.calls && s.calls[c].Reviewing? ::
      s.calls[c].withdrawal < |s.withdrawals| && s.withdrawals[s.calls[c].withdrawal].status.Waiting?
  }

  /** The review commits a debit: it approved, and had found the balance to cover it. */
  predicate Debiting(s: State, e: Event, w: nat) {
    && e.CommitReview? && e.c in s.calls && s.calls[e.c].Reviewing? && s.calls[e.c].withdrawal == w
    && w < |s.withdrawals| && s.calls[e.c].approve && s.calls[e.c].covered
  }

  lemma EnteredDebits(b: Books, entry: Entry, w: nat)
    ensures Debits(Enter(b, entry).rows, w)
         == Debits(b.rows, w)
            + (if (entry.Row? || entry.OpenAndRow?) && entry.row.kind.Withdraw? && entry.row.ref == OfWithdrawal(w)
               then 1 else 0)
  {
    if entry.Row? || entry.OpenAndRow? {
      assert (b.rows + [entry.row])[..|b.rows|] == b.rows;
    }
  }

  lemma DebitsComeFrom(s: State, e: Event, w: nat)
    ensures var entry := EntryOf(s, e);
            (entry.Row? || entry.OpenAndRow?) && entry.row.kind.Withdraw? && entry.row.ref == OfWithdrawal(w)
            <==> Debiting(s, e, w)
  {
  }

  lemma StepDebits(s: State, e: Event, w: nat)
    ensures Debits(Apply(s, e).books.rows, w) == Debits(s.books.rows, w) + (if Debiting(s, e, w) then 1 else 0)
  {
    assert Apply(s, e).books == Enter(s.books, EntryOf(s, e)) by { BooksAreEntered(s, e); }
    DebitsComeFrom(s, e, w);
    EnteredDebits(s.books, EntryOf(s, e), w);
  }

  /** Withdrawals are added waiting and change only by their review. */
  lemma WithdrawalsChange(s: State, e: Event)
    ensures var ws, ws' := s.withdrawals, Apply(s, e).withdrawals;
            && |ws| <= |ws'|
            && (forall w | |ws| <= w < |ws'| :: ws'[w].status.Waiting?)
            && (forall w | 0 <= w < |ws| ::
                  ws'[w] == ws[w]
                  || (e.CommitReview? && e.c in s.calls && s.calls[e.c].Reviewing? && s.calls[e.c].withdrawal == w
                      && (ws'[w].status.Approved? <==> Debiting(s, e, w))))
            && (forall w: nat | Debiting(s, e, w) :: ws'[w].status.Approved?)
  {
    match e
    case CommitWithdraw(_) =>
    case CommitReview(_) =>
    case _ =>
  }

  lemma ReviewsComeFrom(s: State, e: Event, c: nat)
    requires c in Apply(s, e).calls && Apply(s, e).calls[c].Reviewing?
    ensures var w := Apply(s, e).calls[c].withdrawal;
            || (c in s.calls && s.calls[c].Reviewing? && s.calls[c].withdrawal == w)
            || (w < |s.withdrawals| && s.withdrawals[w].status.Waiting?)
    ensures !(e.CommitReview? && e.c == c && Apply(s, e).withdrawals != s.withdrawals)
    ensures e.BeginReview? ==> Apply(s, e).withdrawals == s.withdrawals
  {
    if Finishes(e) {
      FinishersOnlyEnd(s, e);
    }
  }

  lemma ApplyKeepsReviews(s: State, e: Event)
    requires ReviewsFit(s) && Single(s.calls) && (Starts(e) ==> s.calls == map[])
    ensures ReviewsFit(Apply(s, e))
  {
    var s' := Apply(s, e);
    WithdrawalsChange(s, e);
    forall c | c in s'.calls && s'.calls[c].Reviewing?
      ensures s'.calls[c].withdrawal < |s'.withdrawals| && s'.withdrawals[s'.calls[c].withdrawal].status.Waiting?
    {
      ReviewsComeFrom(s, e, c);
      if Finishes(e) {
        FinishersOnlyEnd(s, e);
      }
    }
  }

  /**
   With one request at a time, a withdrawal is debited at most once, and exactly once if and only if it
   was approved.
   */
  lemma {:induction false} SerialWithdrawalsDebitedOnce(stock: Stock, wallets: map<nat, int>, es: seq<Event>)
    requires OneAtATime(Opening(stock, wallets), es)
    ensures var s := Run(Opening(stock, wallets), es); DebitsFit(s) && ReviewsFit(s) && Single(s.calls)
  {
    if es != [] {
      var n := |es| - 1;
      assert forall i | 0 <= i < n :: es[..n][..i] == es[..i];
      SerialWithdrawalsDebitedOnce(stock, wallets, es[..n]);
      var s := Run(Opening(stock, wallets), es[..n]);
      CallsStaySingle(s, es[n]);
      DebitsBreakIff(s, es[n]);
      ApplyKeepsReviews(s, es[n]);
    }
  }

  // ---------------------------------------------------------------------
  // Interleaved: exactly which steps break it
  // ---------------------------------------------------------------------

  /**
   A review that commits although its withdrawal was approved meanwhile: a rejection
   leaves the money taken under the status REJECTED, a covered approval takes it again.
   */
  predicate ComesTooLate(s: State, e: Event) {
    && e.CommitReview? && e.c in s.calls && s.calls[e.c].Reviewing?
    && IsApproved(s.withdrawals, s.calls[e.c].withdrawal)
    && (s.calls[e.c].approve ==> s.calls[e.c].covered)
  }

  lemma DebitsBreakIff(s: State, e: Event)
    requires DebitsFit(s)
    ensures !DebitsFit(Apply(s, e)) <==> ComesTooLate(s, e)
  {
    WithdrawalsChange(s, e);
    if ComesTooLate(s, e) {
      LateReviewBreaks(s, e);
    } else {
      forall w: nat
        ensures Debits(Apply(s, e).books.rows, w) == if IsApproved(Apply(s, e).withdrawals, w) then 1 else 0
      {
        StepDebits(s, e, w);
        assert Debits(s.books.rows, w) == if IsApproved(s.withdrawals, w) then 1 else 0;
      }
    }
  }

  lemma LateReviewBreaks(s: State, e: Event)
    requires DebitsFit(s) && ComesTooLate(s, e)
    ensures !DebitsFit(Apply(s, e))
  {
    var w := s.calls[e.c].withdrawal;
    StepDebits(s, e, w);
    assert Debits(s.books.rows, w) == 1;
    assert IsApproved(Apply(s, e).withdrawals, w) == s.calls[e.c].approve;
  }

  ghost predicate DebitsFitAt(s: State, es: seq<Event>, i: nat)
    requires i <= |es|
  {
    DebitsFit(Run(s, es[..i]))
  }

  predicate TooLateAt(s: State, es: seq<Event>, i: nat)
    requires i < |es|
  {
    ComesTooLate(Run(s, es[..i]), es[i])
  }

  /**
   Over whole runs of any interleaving: approved withdrawals, and no others, have one debit all along
   iff no review comes too late.
   */
  lemma {:induction false} DebitsFitThroughoutIff(stock: Stock, wallets: map<nat, int>, es: seq<Event>)
    ensures (forall i | 0 <= i <= |es| :: DebitsFitAt(Opening(stock, wallets), es, i))
       <==> forall i | 0 <= i < |es| :: !TooLateAt(Opening(stock, wallets), es, i)
  {
    var s := Opening(stock, wallets);
    var n := |es|;
    var holds := (i: nat) => i <= n && DebitsFitAt(s, es, i);
    var keeps := (i: nat) => i < n && !TooLateAt(s, es, i);
    forall i: nat | i < n && holds(i)
      ensures holds(i + 1) <==> keeps(i)
    {
      RunStep(s, es, i);
      DebitsBreakIff(Run(s, es[..i]), es[i]);
    }
    assert es[..0] == [] && holds(0);
    AllAlongIff(holds, keeps, n);
    assert forall i | 0 <= i <= n :: DebitsFitAt(s, es, i) <==> holds(i);
    assert forall i | 0 <= i < n :: !TooLateAt(s, es, i) <==> keeps(i);
  }

  /**
   In any state: a step debits a withdrawal again iff it commits a covered approval of one that has its
   row, whatever the status says.
   */
  lemma DebitedTwiceIff(s: State, e: Event, w: nat)
    ensures 1 <= Debits(s.books.rows, w) < Debits(Apply(s, e).books.rows, w)
       <==> Debiting(s, e, w) && Debits(s.books.rows, w) >= 1
  {
    StepDebits(s, e, w);
  }

  function DebitsAt(s: State, es: seq<Event>, i: nat, w: nat): nat
    requires i <= |es|
  {
    Debits(Run(s, es[..i]).books.rows, w)
  }

  predicate DebitsAgainAt(s: State, es: seq<Event>, i: nat, w: nat)
    requires i < |es|
  {
    Debiting(Run(s, es[..i]), es[i], w) && DebitsAt(s, es, i, w) >= 1
  }

  lemma DebitsNext(s: State, es: seq<Event>, i: nat, w: nat)
    requires i < |es|
    ensures DebitsAt(s, es, i, w) <= DebitsAt(s, es, i + 1, w) <= DebitsAt(s, es, i, w) + 1
    ensures DebitsAt(s, es, i, w) >= 1 ==>
              (DebitsAt(s, es, i, w) < DebitsAt(s, es, i + 1, w) <==> DebitsAgainAt(s, es, i, w))
  {
    RunStep(s, es, i);
    StepDebits(Run(s, es[..i]), es[i], w);
  }

  lemma {:induction false} OneDebitUpTo(s: State, es: seq<Event>, i: nat, w: nat)
    requires i <= |es| && Debits(s.books.rows, w) == 0 && forall j | 0 <= j < i :: !DebitsAgainAt(s, es, j, w)
    ensures DebitsAt(s, es, i, w) <= 1
  {
    if i > 0 {
      OneDebitUpTo(s, es, i - 1, w);
      DebitsNext(s, es, i - 1, w);
    }
  }

  lemma {:induction false} DebitsStay(s: State, es: seq<Event>, i: nat, j: nat, w: nat)
    requires i <= j <= |es|
    ensures DebitsAt(s, es, i, w) <= DebitsAt(s, es, j, w)
  {
    if i < j {
      DebitsStay(s, es, i, j - 1, w);
      DebitsNext(s, es, j - 1, w);
    }
  }

  /**
   Over whole runs of any interleaving: a withdrawal is debited at most once iff no step debits it when
   it has its row.
   */
  lemma {:induction false} DebitedAtMostOnceIff(stock: Stock, wallets: map<nat, int>, es: seq<Event>, w: nat)
    ensures DebitsAt(Opening(stock, wallets), es, |es|, w) <= 1
       <==> forall i | 0 <= i < |es| :: !DebitsAgainAt(Opening(stock, wallets), es, i, w)
  {
    var s := Opening(stock, wallets);
    if forall i | 0 <= i < |es| :: !DebitsAgainAt(s, es, i, w) {
      OneDebitUpTo(s, es, |es|, w);
    }
    forall i | 0 <= i < |es| && DebitsAgainAt(s, es, i, w)
      ensures DebitsAt(s, es, |es|, w) > 1
    {
      DebitsNext(s, es, i, w);
      DebitsStay(s, es, i + 1, |es|, w);
    }
  }

  /** How many steps of the run commit a debit of `w`. */
  function DebitingSteps(s: State, es: seq<Event>, w: nat): nat {
    if es == [] then 0
    else
      var n := |es| - 1;
      DebitingSteps(s, es[..n], w) + (if Debiting(Run(s, es[..n]), es[n], w) then 1 else 0)
  }

  /** In every run, however interleaved, a withdrawal has one WITHDRAW row for each review that debits it. */
  lemma {:induction false} DebitsCountReviews(stock: Stock, wallets: map<nat, int>, es: seq<Event>, w: nat)
    ensures Debits(Run(Opening(stock, wallets), es).books.rows, w) == DebitingSteps(Opening(stock, wallets), es, w)
  {
    if es != [] {
      var n := |es| - 1;
      DebitsCountReviews(stock, wallets, es[..n], w);
      StepDebits(Run(Opening(stock, wallets), es[..n]), es[n], w);
    }
  }

  /** Two reviews that both found one withdrawal covered debit it twice. */
  lemma TwoReviewsDebitTwice(s: State, c: nat, d: nat, w: nat)
    requires c != d && Debiting(s, CommitReview(c), w) && Debiting(s, CommitReview(d), w)
    ensures var t := Apply(Apply(s, CommitReview(c)), CommitReview(d));
            Debits(t.books.rows, w) == Debits(s.books.rows, w) + 2
  {
    StepDebits(s, CommitReview(c), w);
    var t := Apply(s, CommitReview(c));
    assert Debiting(t, CommitReview(d), w);
    StepDebits(t, CommitReview(d), w);
  }

  /** The review commits a rejection. */
  predicate Rejecting(s: State, e: Event, w: nat) {
    && e.CommitReview? && e.c in s.calls && s.calls[e.c].Reviewing? && s.calls[e.c].withdrawal == w
    && w < |s.withdrawals| && !s.calls[e.c].approve
  }

  /** Of two reviews of one withdrawal the approval commits first: it ends rejected, with the money taken. */
  lemma RejectedAfterDebit(s: State, c: nat, d: nat, w: nat)
    requires c != d && Debiting(s, CommitReview(c), w) && Rejecting(s, CommitReview(d), w)
    ensures var t := Apply(Apply(s, CommitReview(c)), CommitReview(d));
            && w < |t.withdrawals| && t.withdrawals[w].status.Rejected?
            && Debits(t.books.rows, w) == Debits(s.books.rows, w) + 1
  {
    StepDebits(s, CommitReview(c), w);
    StepDebits(Apply(s, CommitReview(c)), CommitReview(d), w);
  }

  // ---------------------------------------------------------------------
  // Runs that get there
  // ---------------------------------------------------------------------

  const PURSE := Opening(map[], map[7 := 100])
  const ASKED := PURSE.(withdrawals := [Withdrawal(7, 50, Waiting)])

  lemma WithdrawalIsAsked()
    ensures Run(PURSE, [] + [BeginWithdraw(1, 7, 50)] + [CommitWithdraw(1)]) == ASKED
  {
    RunAppend(PURSE, [], BeginWithdraw(1, 7, 50));
    RunAppend(PURSE, [] + [BeginWithdraw(1, 7, 50)], CommitWithdraw(1));
  }

  /** The withdrawal of 50 is asked for, an approval and one more review open, and the approval finds it covered. */
  function TwoReviews(second: bool): seq<Event> {
    [] + [BeginWithdraw(1, 7, 50)] + [CommitWithdraw(1)]
    + [BeginReview(1, 0, true)] + [BeginReview(2, 0, second)] + [CheckBalance(1)]
  }

  function Reviewed(second: bool, covered: bool): State {
    ASKED.(calls := map[1 := Reviewing(0, true, true), 2 := Reviewing(0, second, covered)])
  }

  lemma TwoReviewsOpen(second: bool)
    ensures Run(PURSE, TwoReviews(second)) == Reviewed(second, false)
  {
    var asked := [] + [BeginWithdraw(1, 7, 50)] + [CommitWithdraw(1)];
    var one := asked + [BeginReview(1, 0, true)];
    var two := one + [BeginReview(2, 0, second)];
    WithdrawalIsAsked();
    RunAppend(PURSE, asked, BeginReview(1, 0, true));
    RunAppend(PURSE, one, BeginReview(2, 0, second));
    RunAppend(PURSE, two, CheckBalance(1));
    OpenedReviews(second);
  }

  lemma OpenedReviews(second: bool)
    ensures Apply(Apply(Apply(ASKED, BeginReview(1, 0, true)), BeginReview(2, 0, second)), CheckBalance(1))
         == Reviewed(second, false)
  {
    var one := ASKED.(calls := map[1 := Reviewing(0, true, false)]);
    var both := ASKED.(calls := map[1 := Reviewing(0, true, false), 2 := Reviewing(0, second, false)]);
    assert Apply(ASKED, BeginReview(1, 0, true)) == one;
    assert Apply(one, BeginReview(2, 0, second)) == both;
    assert Apply(both, CheckBalance(1)) == Put(both, 1, Reviewing(0, true, true));
  }

  /** A run that reaches two approvals, both found covered. */
  lemma TwoReviewsHappen()
    ensures Run(PURSE, TwoReviews(true) + [CheckBalance(2)]) == Reviewed(true, true)
    ensures Debiting(Reviewed(true, true), CommitReview(1), 0) && Debiting(Reviewed(true, true), CommitReview(2), 0)
  {
    TwoReviewsOpen(true);
    RunAppend(PURSE, TwoReviews(true), CheckBalance(2));
    assert Apply(Reviewed(true, false), CheckBalance(2)) == Put(Reviewed(true, false), 2, Reviewing(0, true, true));
  }

  /** A run that ends with the withdrawal rejected and its 50 taken from the wallet of 100. */
  lemma RejectedAfterDebitHappens()
    ensures var s := Run(PURSE, TwoReviews(false) + [CommitReview(1)] + [CommitReview(2)]);
            && s.withdrawals == [Withdrawal(7, 50, Rejected)]
            && Debits(s.books.rows, 0) == 1 && Balance(s.books, 7) == 50
  {
    TwoReviewsOpen(false);
    RunAppend(PURSE, TwoReviews(false), CommitReview(1));
    RunAppend(PURSE, TwoReviews(false) + [CommitReview(1)], CommitReview(2));
    BothCommit();
  }

  lemma BothCommit()
    ensures var s := Apply(Apply(Reviewed(false, false), CommitReview(1)), CommitReview(2));
            && s.withdrawals == [Withdrawal(7, 50, Rejected)]
            && Debits(s.books.rows, 0) == 1 && Balance(s.books, 7) == 50
  {
    RejectedAfterDebit(Reviewed(false, false), 1, 2, 0);
  }
}
