/** Wallet balances over all runs of the shop: the rows explain every balance. */
module ShopWallets {
  import opened Options
  import opened Checkout
  import opened Shop

  /** Sum of the amounts of one kind in the rows of one user. */
  function Total(rows: seq<WalletRow>, user: nat, kind: RowKind): nat {
    if rows == [] then 0
    else
      var last := rows[|rows| - 1];
      Total(rows[..|rows| - 1], user, kind) + (if last.user == user && last.kind == kind then last.amount else 0)
  }

  function Net(rows: seq<WalletRow>, user: nat): int {
    Total(rows, user, Deposit) + Total(rows, user, Refund) - Total(rows, user, Purchase) - Total(rows, user, Withdraw)
  }

  /** Every balance is the opening balance and what the rows say. */
  ghost predicate Explained(opening: map<nat, int>, b: Books) {
    forall u: nat :: Balance(b, u) == (if u in opening then opening[u] else 0) + Net(b.rows, u)
  }

  lemma TotalAppend(rows: seq<WalletRow>, row: WalletRow, user: nat, kind: RowKind)
    ensures Total(rows + [row], user, kind)
         == Total(rows, user, kind) + (if row.user == user && row.kind == kind then row.amount else 0)
  {
    assert (rows + [row])[..|rows|] == rows;
  }

  lemma NetAppend(rows: seq<WalletRow>, row: WalletRow, user: nat)
    ensures Net(rows + [row], user) == Net(rows, user) + (if row.user == user then Signed(row) else 0)
  {
    TotalAppend(rows, row, user, Deposit);
    TotalAppend(rows, row, user, Refund);
    TotalAppend(rows, row, user, Purchase);
    TotalAppend(rows, row, user, Withdraw);
  }

  lemma PostKeepsExplained(opening: map<nat, int>, b: Books, row: WalletRow)
    requires Explained(opening, b)
    ensures Explained(opening, Post(b, row))
  {
    forall u: nat
      ensures Balance(Post(b, row), u) == (if u in opening then opening[u] else 0) + Net(Post(b, row).rows, u)
    {
      NetAppend(b.rows, row, u);
      assert Balance(b, u) == (if u in opening then opening[u] else 0) + Net(b.rows, u);
    }
  }

  lemma WithWalletKeepsExplained(opening: map<nat, int>, b: Books, user: nat)
    requires Explained(opening, b)
    ensures Explained(opening, WithWallet(b, user))
  {
    var b' := WithWallet(b, user);
    assert forall u: nat :: Balance(b', u) == Balance(b, u);
  }

  /** How an event can change the books: not at all, a new empty wallet, a row, or both. */
  datatype Entry = Nothing | Open(user: nat) | Row(row: WalletRow) | OpenAndRow(row: WalletRow)

  function Enter(b: Books, entry: Entry): Books {
    match entry
    case Nothing => b
    case Open(user) => WithWallet(b, user)
    case Row(row) => Post(b, row)
    case OpenAndRow(row) => Post(WithWallet(b, row.user), row)
  }

  /** Events that may change the books. */
  predicate MovesMoney(e: Event) {
    || e.BeginCreate? || e.CommitCreate? || e.CommitCancel? || e.BeginVerifyCharge?
    || e.GatewayAnswers? || e.Confirm? || e.CommitReview? || e.CommitReturn?
  }

  lemma OthersLeaveBooks(s: State, e: Event)
    requires !MovesMoney(e)
    ensures Apply(s, e).books == s.books
  {
  }

  /** The entry of an event; where there is one, it is what the event writes. */
  function EntryOf(s: State, e: Event): Entry {
    match e
    case BeginCreate(c, user, lines, _, pay, _) =>
      if c !in s.calls && lines != [] && UsesWallet(pay) then Open(user) else Nothing
    case CommitCreate(c) =>
      if c in s.calls && s.calls[c].Creating? && Reserve(s.stock, s.calls[c].lines).Some?
          && s.calls[c].split.wallet > 0 then
        Row(WalletRow(s.calls[c].user, Purchase, s.calls[c].split.wallet, OfOrder(|s.orders|)))
      else Nothing
    case CommitCancel(c) =>
      if c in s.calls && s.calls[c].Cancelling? && s.calls[c].order < |s.orders|
         && Restock(s.stock, s.calls[c].seen.lines).Some? && !s.orders[s.calls[c].order].cancelled
         && s.calls[c].seen.paid
      then
        var purchase := FirstPurchase(s.books.rows, s.calls[c].order);
        if purchase.None? then Nothing
        else Row(WalletRow(purchase.value.user, Refund, purchase.value.amount, OfOrder(s.calls[c].order)))
      else Nothing
    case BeginVerifyCharge(c, user, p) =>
      if c !in s.calls && p < |s.payments| && s.payments[p].user == user && s.payments[p].kind.WalletCharge?
         && s.payments[p].status.Success?
      then Open(user) else Nothing
    case GatewayAnswers(c, ok) =>
      if AtStage(s, c, Claimed) && ok && s.payments[s.calls[c].payment].kind.WalletCharge? then
        Open(s.payments[s.calls[c].payment].user)
      else Nothing
    case Confirm(c) =>
      if AtStage(s, c, Confirmed) && s.payments[s.calls[c].payment].kind.WalletCharge? then
        var p := s.calls[c].payment;
        Row(WalletRow(s.payments[p].user, Deposit, s.payments[p].amount, OfCharge(p)))
      else Nothing
    case CommitReview(c) =>
      if c in s.calls && s.calls[c].Reviewing? && s.calls[c].withdrawal < |s.withdrawals| && s.calls[c].approve
          && s.calls[c].covered
      then
        var w := s.calls[c].withdrawal;
        Row(WalletRow(s.withdrawals[w].user, Withdraw, s.withdrawals[w].amount, OfWithdrawal(w)))
      else Nothing
    case CommitReturn(c) =>
      if c in s.calls && s.calls[c].Returning? && s.calls[c].ret < |s.sentBack|
          && s.sentBack[s.calls[c].ret].order < |s.orders|
         && s.calls[c].target.PaidBack? && s.calls[c].refund > 0
      then
        var o := s.sentBack[s.calls[c].ret].order;
        OpenAndRow(WalletRow(s.orders[o].user, Refund, s.calls[c].refund, OfOrder(o)))
      else Nothing
    case _ => Nothing
  }

  lemma BooksAreEntered(s: State, e: Event)
    ensures Apply(s, e).books == Enter(s.books, EntryOf(s, e))
  {
    if !MovesMoney(e) {
      OthersLeaveBooks(s, e);
    } else {
      match e
      case BeginCreate(_, _, _, _, _, _) =>
      case CommitCreate(_) =>
      case CommitCancel(_) =>
      case BeginVerifyCharge(_, _, _) =>
      case GatewayAnswers(_, _) =>
      case Confirm(_) =>
      case CommitReview(_) =>
      case CommitReturn(_) =>
    }
  }

  lemma EnterKeepsExplained(opening: map<nat, int>, b: Books, entry: Entry)
    requires Explained(opening, b)
    ensures Explained(opening, Enter(b, entry))
  {
    match entry
    case Nothing =>
    case Open(user) => WithWalletKeepsExplained(opening, b, user);
    case Row(row) => PostKeepsExplained(opening, b, row);
    case OpenAndRow(row) =>
      WithWalletKeepsExplained(opening, b, row.user);
      PostKeepsExplained(opening, WithWallet(b, row.user), row);
  }

  /**
   In every interleaving of purchases, charges, cancellations, returns and withdrawals,
   each balance is its opening balance plus DEPOSIT and REFUND minus PURCHASE and WITHDRAW rows.
   */
  lemma {:induction false} BalancesAreExplained(stock: Stock, wallets: map<nat, int>, es: seq<Event>)
    ensures Explained(wallets, Run(Opening(stock, wallets), es).books)
  {
    if es != [] {
      var s := Run(Opening(stock, wallets), es[..|es| - 1]);
      var e := es[|es| - 1];
      BalancesAreExplained(stock, wallets, es[..|es| - 1]);
      BooksAreEntered(s, e);
      EnterKeepsExplained(wallets, s.books, EntryOf(s, e));
    }
  }
}
