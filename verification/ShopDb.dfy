/** The services at work on the tables of the shop, each step proved against its event. */
module ShopDb {
  import opened Options
  import opened Checkout
  import opened Shop

  class Database {
    var stock: Stock
    var wallets: map<nat, int>
    var orders: seq<Order>
    var payments: seq<Payment>
    var rows: seq<WalletRow>
    var withdrawals: seq<Withdrawal>
    var sentBack: seq<Return>
    var restocked: seq<Line>
    var calls: map<nat, Call>

    ghost function View(): State
      reads this
    {
      State(stock, Books(wallets, rows), orders, payments, withdrawals, sentBack, restocked, calls)
    }

    constructor (stock: Stock, wallets: map<nat, int>)
      ensures View() == Opening(stock, wallets)
    {
      this.stock, this.wallets := stock, wallets;
      orders, payments, rows, withdrawals, sentBack, restocked, calls := [], [], [], [], [], [], map[];
    }

    // -------------------------------------------------------------------
    // Wallets
    // -------------------------------------------------------------------

    method GetOrCreateWallet(user: nat) returns (balance: int)
      modifies `wallets
      ensures Books(wallets, rows) == WithWallet(Books(old(wallets), rows), user)
      ensures user in wallets && balance == wallets[user]
    {
      if user !in wallets {
        wallets := wallets[user := 0];
      }
      balance := wallets[user];
    }

    /** Adds the signed amount to the balance and writes the row. */
    method Book(row: WalletRow)
      modifies `wallets, `rows
      ensures Books(wallets, rows) == Post(Books(old(wallets), old(rows)), row)
    {
      var balance := if row.user in wallets then wallets[row.user] else 0;
      if row.kind.Deposit? || row.kind.Refund? {
        balance := balance + row.amount;
      } else {
        balance := balance - row.amount;
      }
      wallets := wallets[row.user := balance];
      rows := rows + [row];
    }

    // -------------------------------------------------------------------
    // Stock
    // -------------------------------------------------------------------

    /** Decrements line by line; a line that cannot be served rolls everything back. */
    method ReserveStock(lines: seq<Line>) returns (ok: bool)
      modifies `stock
      ensures ok <==> Reserve(old(stock), lines).Some?
      ensures stock == if ok then Reserve(old(stock), lines).value else old(stock)
    {
      var before := stock;
      for i := 0 to |lines|
        invariant Reserve(before, lines[..i]) == Some(stock)
      {
        assert lines[..i + 1][..i] == lines[..i];
        var Line(variant, quantity) := lines[i];
        if variant !in stock || stock[variant] < quantity {
          assert Reserve(before, lines[..i + 1]).None?;
          PrefixFails(before, lines, i + 1);
          stock := before;
          return false;
        }
        stock := stock[variant := stock[variant] - quantity];
      }
      assert lines[..|lines|] == lines;
      ok := true;
    }

    /** Increments line by line; a variant that is gone rolls everything back. */
    method PutBack(lines: seq<Line>) returns (ok: bool)
      modifies `stock
      ensures ok <==> Restock(old(stock), lines).Some?
      ensures stock == if ok then Restock(old(stock), lines).value else old(stock)
    {
      var before := stock;
      for i := 0 to |lines|
        invariant Restock(before, lines[..i]) == Some(stock)
      {
        assert lines[..i + 1][..i] == lines[..i];
        var Line(variant, quantity) := lines[i];
        if variant !in stock {
          assert Restock(before, lines[..i + 1]).None?;
          RestockPrefixFails(before, lines, i + 1);
          stock := before;
          return false;
        }
        stock := stock[variant := stock[variant] + quantity];
      }
      assert lines[..|lines|] == lines;
      ok := true;
    }

    // -------------------------------------------------------------------
    // Orders
    // -------------------------------------------------------------------

    /** Reads the wallet and splits the total; the order itself is placed by a later step. */
    method StartOrder(c: nat, user: nat, lines: seq<Line>, total: nat, pay: PaymentMethod, hasGateway: bool)
      returns (r: Result<Split>)
      requires c !in calls
      modifies `wallets, `calls
      ensures View() == Apply(old(View()), BeginCreate(c, user, lines, total, pay, hasGateway))
      ensures r.Ok? <==> c in calls
    {
      if lines == [] {
        return Err(BadRequest);
      }
      var balance := 0;
      if UsesWallet(pay) {
        balance := GetOrCreateWallet(user);
      }
      r := SplitPayment(pay, balance, total, hasGateway);
      if r.Ok? {
        calls := calls[c := Creating(user, lines, total, pay, r.value, Debt(pay, balance))];
      }
    }

    /** The transaction of an order: stock, order, wallet and payment together, or nothing. */
    method PlaceOrder(c: nat) returns (r: Result<nat>)
      requires c in calls && calls[c].Creating?
      modifies this
      ensures View() == Apply(old(View()), CommitCreate(c))
      ensures r.Ok? <==> Reserve(old(stock), old(calls)[c].lines).Some?
      ensures r.Ok? ==> r.value == |old(orders)| && |orders| == |old(orders)| + 1
    {
      var call := calls[c];
      calls := calls - {c};
      var ok := ReserveStock(call.lines);
      if !ok {
        return Err(Conflict);
      }
      var id := |orders|;
      var order := NewOrder(|payments|, call);
      orders := orders + [order];
      if call.split.wallet > 0 {
        Book(WalletRow(call.user, Purchase, call.split.wallet, OfOrder(id)));
      }
      if call.split.gateway > 0 {
        payments := payments + [Payment(call.user, OrderPayment(id), call.split.gateway, Pending)];
      }
      r := Ok(id);
    }

    method StartCancellation(c: nat, order: nat, who: Canceller) returns (r: Result<nat>)
      requires c !in calls
      modifies `calls
      ensures View() == Apply(old(View()), BeginCancel(c, order, who))
      ensures r.Ok? <==> order < |orders| && MayCancel(orders[order], who)
    {
      if order >= |orders| || (who.Customer? && orders[order].user != who.user) {
        return Err(NotFound);
      }
      var status := orders[order].status;
      if !status.PendingPayment? && (who.Expiry? || !status.Processing?) {
        return Err(Conflict);
      }
      calls := calls[c := Cancelling(order, orders[order])];
      r := Ok(order);
    }

    /** Puts the goods back, then the money of an order seen as paid, then closes the order; or nothing at all. */
    method PerformCancellation(c: nat) returns (ok: bool)
      requires c in calls && calls[c].Cancelling? && calls[c].order < |orders|
      modifies this
      ensures View() == Apply(old(View()), CommitCancel(c))
      ensures ok ==> orders[old(calls)[c].order].cancelled && orders[old(calls)[c].order].status.Cancelled?
      ensures ok <==> Restock(old(stock), old(calls)[c].seen.lines).Some? && !old(orders)[old(calls)[c].order].cancelled
    {
      var Cancelling(o, seen) := calls[c];
      var before := stock;
      calls := calls - {c};
      ok := PutBack(seen.lines);
      if !ok {
        return;
      }
      if orders[o].cancelled {
        stock := before;
        return false;
      }
      if seen.paid {
        var purchase := FirstPurchase(rows, o);
        if purchase.Some? {
          Book(WalletRow(purchase.value.user, Refund, purchase.value.amount, OfOrder(o)));
        }
        var payment := FirstPaid(payments, o);
        if payment.Some? {
          payments := payments + [Payment(seen.user, OrderRefund(o), payment.value.amount, Pending)];
        }
      }
      orders := orders[o := orders[o].(status := Cancelled, cancelled := true)];
    }

    // -------------------------------------------------------------------
    // Payments
    // -------------------------------------------------------------------

    method InitiateWalletCharge(user: nat, amount: nat) returns (p: nat)
      modifies `payments
      ensures View() == Apply(old(View()), InitiateCharge(user, amount))
      ensures p < |payments| && payments[p] == Payment(user, WalletCharge, amount, Pending)
    {
      p := |payments|;
      payments := payments + [Payment(user, WalletCharge, amount, Pending)];
    }

    /** Ok(true) when the charge was credited before; Ok(false) when verification goes on. */
    method StartVerifyCharge(c: nat, user: nat, p: nat) returns (r: Result<bool>)
      requires c !in calls
      modifies `wallets, `calls
      ensures View() == Apply(old(View()), BeginVerifyCharge(c, user, p))
      ensures r == Ok(false) <==> c in calls
    {
      if p >= |payments| || payments[p].user != user || !payments[p].kind.WalletCharge? {
        return Err(NotFound);
      }
      if payments[p].status.Success? {
        var _ := GetOrCreateWallet(user);
        return Ok(true);
      }
      calls := calls[c := Verifying(p, Read)];
      r := Ok(false);
    }

    method StartVerifyOrder(c: nat, user: nat, order: nat) returns (r: Result<nat>)
      requires c !in calls
      modifies `calls
      ensures View() == Apply(old(View()), BeginVerifyOrder(c, user, order))
      ensures r.Ok? <==> c in calls
    {
      if order >= |orders| || orders[order].user != user {
        return Err(NotFound);
      }
      var p := LastPending(payments, order);
      if p.None? {
        return Err(BadRequest);
      }
      calls := calls[c := Verifying(p.value, Read)];
      r := Ok(p.value);
    }

    /** Pending to failed, if it still is pending; the request of the loser ends. */
    method ClaimPayment(c: nat) returns (won: bool)
      requires c in calls && calls[c].Verifying? && calls[c].stage.Read? && calls[c].payment < |payments|
      modifies `payments, `calls
      ensures View() == Apply(old(View()), Claim(c))
      ensures won <==> old(payments)[old(calls)[c].payment].status.Pending?
      ensures won <==> c in calls
    {
      var p := calls[c].payment;
      if !payments[p].status.Pending? {
        calls := calls - {c};
        return false;
      }
      payments := payments[p := payments[p].(status := Failed)];
      calls := calls[c := Verifying(p, Claimed)];
      won := true;
    }

    method HearFromGateway(c: nat, ok: bool)
      requires c in calls && calls[c].Verifying? && calls[c].stage.Claimed? && calls[c].payment < |payments|
      modifies `wallets, `calls
      ensures View() == Apply(old(View()), GatewayAnswers(c, ok))
    {
      var p := calls[c].payment;
      if !ok {
        calls := calls - {c};
        return;
      }
      if payments[p].kind.WalletCharge? {
        var _ := GetOrCreateWallet(payments[p].user);
      }
      calls := calls[c := Verifying(p, Confirmed)];
    }

    /** The transaction behind a positive answer: a charge is credited, an order is paid and goes to processing. */
    method ConfirmPayment(c: nat)
      requires c in calls && calls[c].Verifying? && calls[c].stage.Confirmed? && calls[c].payment < |payments|
      modifies this
      ensures View() == Apply(old(View()), Confirm(c))
    {
      var p := calls[c].payment;
      var payment := payments[p];
      calls := calls - {c};
      payments := payments[p := payment.(status := Success)];
      if payment.kind.WalletCharge? {
        Book(WalletRow(payment.user, Deposit, payment.amount, OfCharge(p)));
      } else if payment.kind.OrderPayment? && payment.kind.order < |orders| {
        var o := payment.kind.order;
        orders := orders[o := orders[o].(status := Processing, paid := true)];
      }
    }

    // -------------------------------------------------------------------
    // Withdrawals and returns
    // -------------------------------------------------------------------

    method CheckWithdrawal(c: nat) returns (covered: bool)
      requires c in calls && calls[c].Reviewing? && calls[c].approve && calls[c].withdrawal < |withdrawals|
      modifies `calls
      ensures View() == Apply(old(View()), CheckBalance(c))
      ensures covered <==> c in calls
    {
      var withdrawal := withdrawals[calls[c].withdrawal];
      covered := withdrawal.user in wallets && wallets[withdrawal.user] >= withdrawal.amount;
      calls := if covered then calls[c := calls[c].(covered := true)] else calls - {c};
    }

    method ReviewWithdrawal(c: nat)
      requires c in calls && calls[c].Reviewing? && calls[c].withdrawal < |withdrawals|
      requires calls[c].approve ==> calls[c].covered
      modifies this
      ensures View() == Apply(old(View()), CommitReview(c))
    {
      var Reviewing(w, approve, _) := calls[c];
      var Withdrawal(user, amount, _) := withdrawals[w];
      calls := calls - {c};
      if approve {
        Book(WalletRow(user, Withdraw, amount, OfWithdrawal(w)));
      }
      withdrawals := withdrawals[w := Withdrawal(user, amount, if approve then Approved else Rejected)];
    }

    method ReceiveReturn(lines: seq<Line>) returns (ok: bool)
      modifies `stock, `restocked
      ensures ok <==> Restock(old(stock), lines).Some?
      ensures stock == if ok then Restock(old(stock), lines).value else old(stock)
      ensures restocked == if ok then old(restocked) + lines else old(restocked)
    {
      ok := PutBack(lines);
      if ok {
        restocked := restocked + lines;
      }
    }

    /** Credits the customer; the return of a whole order closes it. */
    method PayBackReturn(ret: Return, refund: nat)
      requires ret.order < |orders|
      modifies `wallets, `rows, `orders
      ensures var user := old(orders)[ret.order].user;
              Books(wallets, rows)
              == Post(WithWallet(Books(old(wallets), old(rows)), user),
                  WalletRow(user, Refund, refund, OfOrder(ret.order)))
      ensures orders == if ret.item.None? then WithOrderStatus(old(orders), ret.order, Returned) else old(orders)
    {
      var user := orders[ret.order].user;
      var _ := GetOrCreateWallet(user);
      Book(WalletRow(user, Refund, refund, OfOrder(ret.order)));
      if ret.item.None? {
        orders := orders[ret.order := orders[ret.order].(status := Returned)];
      }
    }

    /** Goods on receipt, money on settlement; a settlement without an amount undoes nothing and does nothing. */
    method UpdateReturn(c: nat) returns (ok: bool)
      requires c in calls && calls[c].Returning?
      requires calls[c].ret < |sentBack| && sentBack[calls[c].ret].order < |orders|
      modifies this
      ensures View() == Apply(old(View()), CommitReturn(c))
      ensures ok ==> sentBack[old(calls)[c].ret].status == old(calls)[c].target
    {
      var call := calls[c];
      var ret := sentBack[call.ret];
      calls := calls - {c};
      assert restocked + [] == restocked;
      match call.target {
        case Received =>
          ok := ReceiveReturn(ReturnedLines(orders[ret.order], ret.item));
          if !ok { return; }
        case PaidBack =>
          if call.refund == 0 { return false; }
          PayBackReturn(ret, call.refund);
        case Rejected =>
          if call.seenStatus.ReturnRequested? {
            orders := WithOrderStatus(orders, ret.order, Delivered);
          }
        case _ =>
      }
      sentBack := sentBack[call.ret := ret.(status := call.target)];
      ok := true;
    }
  }

  lemma {:induction false} PrefixFails(stock: Stock, lines: seq<Line>, n: nat)
    requires n <= |lines| && Reserve(stock, lines[..n]).None?
    ensures Reserve(stock, lines).None?
    decreases |lines| - n
  {
    if n == |lines| {
      assert lines[..n] == lines;
    } else {
      assert lines[..n + 1][..n] == lines[..n];
      PrefixFails(stock, lines, n + 1);
    }
  }

  lemma {:induction false} RestockPrefixFails(stock: Stock, lines: seq<Line>, n: nat)
    requires n <= |lines| && Restock(stock, lines[..n]).None?
    ensures Restock(stock, lines).None?
    decreases |lines| - n
  {
    if n == |lines| {
      assert lines[..n] == lines;
    } else {
      assert lines[..n + 1][..n] == lines[..n];
      RestockPrefixFails(stock, lines, n + 1);
    }
  }
}
