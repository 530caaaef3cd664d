/**
 The money of an order before it is written: the cart subtotal, the discount
 code, the shares of the discount on the lines, and the split of the total
 between wallet and gateway.
 */
module Checkout {
  import opened Options
  import opened Allocation

  datatype CartLine = CartLine(variant: int, product: int, categories: set<int>, unitPrice: int, quantity: nat) {
    function Total(): int { unitPrice * quantity }
  }

  /** `maxDiscount` and `minCart` are unset when 0, as the original tests them for truth. */
  datatype DiscountCode = DiscountCode(
    kind: DiscountKind,
    value: nat,
    maxDiscount: nat,
    minCart: nat,
    products: set<int>,
    categories: set<int>)

  datatype Evaluation = Evaluation(discount: int, eligible: seq<int>)

  datatype PaymentMethod = Gateway | Wallet | Mixed | FreightCollect

  datatype Split = Split(wallet: int, gateway: int)

  datatype Quote = Quote(subtotal: int, discount: int, total: int, lineDiscounts: seq<int>)

  // ---------------------------------------------------------------------
  // Discount codes
  // ---------------------------------------------------------------------

  function Min(a: int, b: int): int { if a <= b then a else b }
  function Max(a: int, b: int): int { if a >= b then a else b }

  function Totals(lines: seq<CartLine>): (r: seq<int>)
    ensures |r| == |lines|
  {
    seq(|lines|, i requires 0 <= i < |lines| => lines[i].Total())
  }

  predicate IsRestricted(code: DiscountCode) {
    code.products != {} || code.categories != {}
  }

  predicate IsEligible(code: DiscountCode, line: CartLine) {
    !IsRestricted(code) || line.product in code.products || line.categories * code.categories != {}
  }

  function EligibleLines(code: DiscountCode, lines: seq<CartLine>): seq<CartLine> {
    if lines == [] then []
    else
      var init, last := lines[..|lines| - 1], lines[|lines| - 1];
      EligibleLines(code, init) + (if IsEligible(code, last) then [last] else [])
  }

  function DiscountAmount(code: DiscountCode, eligibleSubtotal: int): int {
    if eligibleSubtotal <= 0 then 0
    else
      var raw := if code.kind.Percent? then eligibleSubtotal * code.value / 100 else code.value;
      var capped := if code.maxDiscount != 0 then Min(raw, code.maxDiscount) else raw;
      Min(capped, eligibleSubtotal)
  }

  function Variants(lines: seq<CartLine>): (r: seq<int>)
    ensures |r| == |lines|
  {
    seq(|lines|, i requires 0 <= i < |lines| => lines[i].variant)
  }

  function Evaluate(code: DiscountCode, lines: seq<CartLine>): Result<Evaluation> {
    if lines == [] then Err(BadRequest)
    else if code.minCart != 0 && Sum(Totals(lines)) < code.minCart then Err(BadRequest)
    else
      var eligible := EligibleLines(code, lines);
      if IsRestricted(code) && eligible == [] then Err(BadRequest)
      else Ok(Evaluation(DiscountAmount(code, Sum(Totals(eligible))), Variants(eligible)))
  }

  // ---------------------------------------------------------------------
  // The quote: totals and the share of the discount on every line
  // ---------------------------------------------------------------------

  function LinesOf(lines: seq<CartLine>, variants: seq<int>): seq<CartLine> {
    if lines == [] then []
    else
      var init, last := lines[..|lines| - 1], lines[|lines| - 1];
      LinesOf(init, variants) + (if last.variant in variants then [last] else [])
  }

  /** The map from variant to share; a later line overwrites an earlier one. */
  function ShareMap(lines: seq<CartLine>, shares: seq<int>): map<int, int>
    requires |shares| == |lines|
  {
    if lines == [] then map[]
    else
      var n := |lines| - 1;
      ShareMap(lines[..n], shares[..n])[lines[n].variant := shares[n]]
  }

  function LookUp(lines: seq<CartLine>, m: map<int, int>): (r: seq<int>)
    ensures |r| == |lines|
  {
    seq(|lines|, i requires 0 <= i < |lines| => if lines[i].variant in m then m[lines[i].variant] else 0)
  }

  function LineDiscounts(lines: seq<CartLine>, e: Evaluation): (r: seq<int>)
    ensures |r| == |lines|
  {
    if e.discount > 0 && |e.eligible| > 0 then
      var eligible := LinesOf(lines, e.eligible);
      LookUp(lines, ShareMap(eligible, Allocate(e.discount, Totals(eligible))))
    else LookUp(lines, map[])
  }

  /**
   `cart` is the cart the order is made from. The discount is evaluated by a
   second read of the cart, `cartAgain`, which may have changed in between.
   */
  function MakeQuote(cart: seq<CartLine>, code: Option<DiscountCode>, cartAgain: seq<CartLine>, shipping: nat)
    : Result<Quote>
  {
    if cart == [] then Err(BadRequest)
    else
      var subtotal := Sum(Totals(cart));
      match code
      case None => Ok(Quote(subtotal, 0, Max(0, subtotal + shipping), LookUp(cart, map[])))
      case Some(c) =>
        match Evaluate(c, cartAgain)
        case Err(e) => Err(e)
        case Ok(e) =>
          Ok(Quote(subtotal, e.discount, Max(0, subtotal + shipping - e.discount), LineDiscounts(cart, e)))
  }

  /** The part of order creation that fills the map of shares, step by step. */
  method ShareDiscount(lines: seq<CartLine>, e: Evaluation) returns (perLine: seq<int>)
    ensures perLine == LineDiscounts(lines, e)
  {
    var perVariant: map<int, int> := map[];
    if e.discount > 0 && |e.eligible| > 0 {
      var eligible := LinesOf(lines, e.eligible);
      var shares := AllocateProportionally(e.discount, Totals(eligible));
      for i := 0 to |eligible|
        invariant perVariant == ShareMap(eligible[..i], shares[..i])
      {
        assert eligible[..i + 1][..i] == eligible[..i] && shares[..i + 1][..i] == shares[..i];
        perVariant := perVariant[eligible[i].variant := shares[i]];
      }
      assert eligible[..|eligible|] == eligible && shares[..|eligible|] == shares;
    }
    perLine := LookUp(lines, perVariant);
  }

  // ---------------------------------------------------------------------
  // Splitting the total
  // ---------------------------------------------------------------------

  function SplitPayment(pay: PaymentMethod, balance: int, total: int, hasGateway: bool): Result<Split> {
    if pay.FreightCollect? then Ok(Split(0, 0))
    else if pay.Wallet? && balance < total then Err(BadRequest)
    else
      var wallet := match pay
        case Wallet => total
        case Mixed => Min(balance, total)
        case _ => 0;
      var gateway := total - wallet;
      if gateway > 0 && !hasGateway then Err(BadRequest) else Ok(Split(wallet, gateway))
  }

  /** What a negative wallet adds to the gateway bill of a mixed payment. */
  function Debt(pay: PaymentMethod, balance: int): nat {
    if pay.Mixed? && balance < 0 then -balance else 0
  }

  // ---------------------------------------------------------------------
  // Sums over lines
  // ---------------------------------------------------------------------

  ghost predicate NonNegativePrices(lines: seq<CartLine>) {
    forall l <- lines :: l.unitPrice >= 0
  }

  ghost predicate DistinctVariants(lines: seq<CartLine>) {
    forall i, j | 0 <= i < j < |lines| :: lines[i].variant != lines[j].variant
  }

  lemma TotalsAppend(lines: seq<CartLine>, l: CartLine)
    ensures Sum(Totals(lines + [l])) == Sum(Totals(lines)) + l.Total()
  {
    assert Totals(lines + [l]) == Totals(lines) + [l.Total()];
    SumAppend(Totals(lines), l.Total());
  }

  lemma {:induction false} EligibleBounded(code: DiscountCode, lines: seq<CartLine>)
    requires NonNegativePrices(lines)
    ensures 0 <= Sum(Totals(EligibleLines(code, lines))) <= Sum(Totals(lines))
  {
    if lines != [] {
      var init, last := lines[..|lines| - 1], lines[|lines| - 1];
      EligibleBounded(code, init);
      assert lines == init + [last] && last in lines && last.Total() >= 0;
      TotalsAppend(init, last);
      TotalsAppend(EligibleLines(code, init), last);
      assert EligibleLines(code, init) + [] == EligibleLines(code, init);
    }
  }

  lemma DiscountBounded(code: DiscountCode, eligibleSubtotal: int)
    ensures 0 <= DiscountAmount(code, eligibleSubtotal) <= Max(0, eligibleSubtotal)
  {
    if eligibleSubtotal > 0 {
      FloorShare(eligibleSubtotal, code.value, 100);
    }
  }

  lemma {:induction false} EligibleMembers(code: DiscountCode, lines: seq<CartLine>)
    ensures forall l :: l in EligibleLines(code, lines) <==> l in lines && IsEligible(code, l)
  {
    if lines != [] {
      EligibleMembers(code, lines[..|lines| - 1]);
      assert lines == lines[..|lines| - 1] + [lines[|lines| - 1]];
    }
  }

  // ---------------------------------------------------------------------
  // What a code covers and how much it takes off
  // ---------------------------------------------------------------------

  lemma ShareMemberIff(a: set<int>, b: set<int>)
    ensures a * b != {} <==> exists x <- a :: x in b
  {
    if x :| x in a && x in b {
      assert x in a * b;
    }
    if forall x <- a :: x !in b {
      assert a * b == {};
    }
  }

  /** A code without products and categories covers everything, else what is listed or in a listed category. */
  lemma EligibleIff(code: DiscountCode, line: CartLine)
    ensures IsEligible(code, line) <==>
              || (code.products == {} && code.categories == {})
              || line.product in code.products
              || exists c <- line.categories :: c in code.categories
  {
    ShareMemberIff(line.categories, code.categories);
  }

  /** The bounds on what a code takes off lines worth `eligibleSubtotal`. */
  predicate WithinCode(code: DiscountCode, eligibleSubtotal: int, amount: int) {
    && amount <= eligibleSubtotal
    && (code.maxDiscount != 0 ==> amount <= code.maxDiscount)
    && (match code.kind
        case Percent => 100 * amount <= eligibleSubtotal * code.value
        case Fixed => amount <= code.value)
  }

  /** A code takes off the largest amount within its bounds, and nothing where there is nothing to pay. */
  lemma DiscountIsLargest(code: DiscountCode, eligibleSubtotal: int, amount: int)
    ensures eligibleSubtotal <= 0 ==> DiscountAmount(code, eligibleSubtotal) == 0
    ensures eligibleSubtotal > 0 ==>
              (amount <= DiscountAmount(code, eligibleSubtotal) <==> WithinCode(code, eligibleSubtotal, amount))
  {
  }

  /**
   A code is accepted if and only if the cart is not empty, reaches the minimum as a whole, and
   some line is covered. It then takes its amount off the covered lines and names their variants.
   */
  lemma EvaluatedIff(code: DiscountCode, lines: seq<CartLine>)
    ensures Evaluate(code, lines) != Err(BadRequest) <==>
              && (code.minCart != 0 ==> Sum(Totals(lines)) >= code.minCart)
              && exists l <- lines :: IsEligible(code, l)
    ensures Evaluate(code, lines) != Err(BadRequest) ==>
              && Evaluate(code, lines).Ok?
              && var e := Evaluate(code, lines).value; var covered := EligibleLines(code, lines);
                 && e.discount == DiscountAmount(code, Sum(Totals(covered)))
                 && forall v :: v in e.eligible <==> exists l <- lines :: IsEligible(code, l) && l.variant == v
  {
    var covered := EligibleLines(code, lines);
    EligibleMembers(code, lines);
    if lines != [] && !IsRestricted(code) {
      assert lines[0] in lines && IsEligible(code, lines[0]) && lines[0] in covered;
    }
    if l :| l in lines && IsEligible(code, l) {
      assert l in covered;
    }
    if covered != [] {
      assert covered[0] in covered;
    }
    forall v
      ensures v in Variants(covered) <==> exists l <- lines :: IsEligible(code, l) && l.variant == v
    {
      if v in Variants(covered) {
        var i :| 0 <= i < |covered| && Variants(covered)[i] == v;
        assert covered[i] in covered;
      }
      if l :| l in lines && IsEligible(code, l) && l.variant == v {
        var i :| 0 <= i < |covered| && covered[i] == l;
        assert Variants(covered)[i] == v;
      }
    }
  }

  // ---------------------------------------------------------------------
  // Shares on lines
  // ---------------------------------------------------------------------

  /** Selecting by variant finds the eligible lines again when variants are distinct. */
  lemma {:induction false} SelectionAgrees(code: DiscountCode, lines: seq<CartLine>, variants: seq<int>)
    requires forall l <- lines :: l.variant in variants <==> IsEligible(code, l)
    ensures LinesOf(lines, variants) == EligibleLines(code, lines)
  {
    if lines != [] {
      var init, last := lines[..|lines| - 1], lines[|lines| - 1];
      assert last in lines && forall l <- init :: l in lines;
      SelectionAgrees(code, init, variants);
    }
  }

  lemma EligibleByVariant(code: DiscountCode, lines: seq<CartLine>)
    requires DistinctVariants(lines)
    ensures LinesOf(lines, Variants(EligibleLines(code, lines))) == EligibleLines(code, lines)
  {
    var eligible := EligibleLines(code, lines);
    var variants := Variants(eligible);
    EligibleMembers(code, lines);
    forall l | l in lines
      ensures l.variant in variants <==> IsEligible(code, l)
    {
      if IsEligible(code, l) {
        var i :| 0 <= i < |eligible| && eligible[i] == l;
        assert variants[i] == l.variant;
      }
      if l.variant in variants {
        var i :| 0 <= i < |eligible| && variants[i] == l.variant;
        assert eligible[i] in eligible;
        SameVariantSameLine(lines, eligible[i], l);
      }
    }
    SelectionAgrees(code, lines, variants);
  }

  lemma SameVariantSameLine(lines: seq<CartLine>, a: CartLine, b: CartLine)
    requires DistinctVariants(lines) && a in lines && b in lines && a.variant == b.variant
    ensures a == b
  {
  }

  /** The lines picked by variant, in order, keep distinct variants. */
  lemma {:induction false} LinesOfMembers(lines: seq<CartLine>, variants: seq<int>)
    ensures forall l :: l in LinesOf(lines, variants) <==> l in lines && l.variant in variants
  {
    if lines != [] {
      LinesOfMembers(lines[..|lines| - 1], variants);
      assert lines == lines[..|lines| - 1] + [lines[|lines| - 1]];
    }
  }

  lemma {:induction false} ShareMapKeys(lines: seq<CartLine>, shares: seq<int>)
    requires |shares| == |lines|
    ensures forall v :: v in ShareMap(lines, shares) <==> exists l :: l in lines && l.variant == v
  {
    if lines != [] {
      var n := |lines| - 1;
      ShareMapKeys(lines[..n], shares[..n]);
      assert lines == lines[..n] + [lines[n]];
    }
  }

  /** One more line, picked: the share goes to it and to no line before it. */
  lemma LookUpPicked(lines: seq<CartLine>, last: CartLine, m: map<int, int>, share: int)
    requires DistinctVariants(lines + [last])
    ensures Sum(LookUp(lines + [last], m[last.variant := share])) == Sum(LookUp(lines, m)) + share
  {
    forall i | 0 <= i < |lines|
      ensures lines[i].variant != last.variant
    {
      assert (lines + [last])[i] == lines[i] && (lines + [last])[|lines|] == last;
    }
    assert LookUp(lines + [last], m[last.variant := share]) == LookUp(lines, m) + [share];
    SumAppend(LookUp(lines, m), share);
  }

  lemma LookUpSkipped(lines: seq<CartLine>, last: CartLine, m: map<int, int>)
    requires last.variant !in m
    ensures Sum(LookUp(lines + [last], m)) == Sum(LookUp(lines, m))
  {
    assert LookUp(lines + [last], m) == LookUp(lines, m) + [0];
    SumAppend(LookUp(lines, m), 0);
  }

  lemma LinesOfAppend(init: seq<CartLine>, last: CartLine, variants: seq<int>)
    ensures LinesOf(init + [last], variants)
         == LinesOf(init, variants) + (if last.variant in variants then [last] else [])
  {
    assert (init + [last])[..|init|] == init;
  }

  lemma DistinctPrefix(init: seq<CartLine>, last: CartLine)
    requires DistinctVariants(init + [last])
    ensures DistinctVariants(init) && forall l <- init :: l.variant != last.variant
  {
    assert forall i | 0 <= i < |init| :: (init + [last])[i] == init[i];
    assert (init + [last])[|init|] == last;
  }

  /** The last line against those before it. */
  lemma LastLine(lines: seq<CartLine>, variants: seq<int>)
    requires lines != [] && DistinctVariants(lines)
    ensures var n := |lines| - 1;
            && lines == lines[..n] + [lines[n]]
            && DistinctVariants(lines[..n])
            && LinesOf(lines, variants) == LinesOf(lines[..n], variants)
               + (if lines[n].variant in variants then [lines[n]] else [])
  {
    var n := |lines| - 1;
    assert lines == lines[..n] + [lines[n]];
    DistinctPrefix(lines[..n], lines[n]);
    LinesOfAppend(lines[..n], lines[n], variants);
  }

  /** Looking the shares up line by line finds each of them exactly once. */
  lemma {:induction false} LookUpSum(lines: seq<CartLine>, variants: seq<int>, shares: seq<int>)
    requires DistinctVariants(lines) && |shares| == |LinesOf(lines, variants)|
    ensures Sum(LookUp(lines, ShareMap(LinesOf(lines, variants), shares))) == Sum(shares)
  {
    if lines != [] {
      LastLine(lines, variants);
      var init := lines[..|lines| - 1];
      if lines[|lines| - 1].variant in variants {
        LookUpSum(init, variants, shares[..|shares| - 1]);
        LastPicked(lines, variants, shares);
      } else {
        LookUpSum(init, variants, shares);
        LastSkipped(lines, variants, shares);
      }
    }
  }

  lemma LastPicked(lines: seq<CartLine>, variants: seq<int>, shares: seq<int>)
    requires lines != [] && DistinctVariants(lines) && lines[|lines| - 1].variant in variants
    requires |shares| == |LinesOf(lines, variants)| && shares != []
    requires var init, before := lines[..|lines| - 1], shares[..|shares| - 1];
             |before| == |LinesOf(init, variants)| && Sum(LookUp(init, ShareMap(LinesOf(init, variants), before)))
                 == Sum(before)
    ensures Sum(LookUp(lines, ShareMap(LinesOf(lines, variants), shares))) == Sum(shares)
  {
    var n, m := |lines| - 1, |shares| - 1;
    assert lines == lines[..n] + [lines[n]] && shares == shares[..m] + [shares[m]];
    PickedLineCounts(lines[..n], lines[n], variants, shares[..m], shares[m]);
  }

  lemma LastSkipped(lines: seq<CartLine>, variants: seq<int>, shares: seq<int>)
    requires lines != [] && DistinctVariants(lines) && lines[|lines| - 1].variant !in variants
    requires var init := lines[..|lines| - 1];
             |shares| == |LinesOf(init, variants)| && LinesOf(lines, variants) == LinesOf(init, variants)
             && Sum(LookUp(init, ShareMap(LinesOf(init, variants), shares))) == Sum(shares)
    ensures Sum(LookUp(lines, ShareMap(LinesOf(lines, variants), shares))) == Sum(shares)
  {
    var n := |lines| - 1;
    assert lines == lines[..n] + [lines[n]];
    SkippedLineCounts(lines[..n], lines[n], variants, shares);
  }

  lemma PickedLineCounts(init: seq<CartLine>, last: CartLine, variants: seq<int>, shares: seq<int>, share: int)
    requires DistinctVariants(init + [last]) && last.variant in variants
    requires |shares| == |LinesOf(init, variants)|
    requires Sum(LookUp(init, ShareMap(LinesOf(init, variants), shares))) == Sum(shares)
    ensures |shares + [share]| == |LinesOf(init + [last], variants)|
    ensures Sum(LookUp(init + [last], ShareMap(LinesOf(init + [last], variants), shares + [share])))
        == Sum(shares + [share])
  {
    var p := LinesOf(init, variants);
    LinesOfAppend(init, last, variants);
    ShareMapAppend(p, last, shares, share);
    LookUpPicked(init, last, ShareMap(p, shares), share);
    SumAppend(shares, share);
  }

  lemma {:induction false} SkippedLineCounts(init: seq<CartLine>, last: CartLine, variants: seq<int>, shares: seq<int>)
    requires last.variant !in variants && |shares| == |LinesOf(init, variants)|
    requires Sum(LookUp(init, ShareMap(LinesOf(init, variants), shares))) == Sum(shares)
    requires LinesOf(init + [last], variants) == LinesOf(init, variants)
    ensures Sum(LookUp(init + [last], ShareMap(LinesOf(init + [last], variants), shares))) == Sum(shares)
  {
    SkippedHasNoShare(init, last, variants, shares);
    LookUpSkipped(init, last, ShareMap(LinesOf(init, variants), shares));
  }

  lemma SkippedHasNoShare(init: seq<CartLine>, last: CartLine, variants: seq<int>, shares: seq<int>)
    requires last.variant !in variants && |shares| == |LinesOf(init, variants)|
    ensures last.variant !in ShareMap(LinesOf(init, variants), shares)
  {
    LinesOfMembers(init, variants);
    ShareMapKeys(LinesOf(init, variants), shares);
  }

  lemma ShareMapAppend(lines: seq<CartLine>, last: CartLine, shares: seq<int>, share: int)
    requires |shares| == |lines|
    ensures ShareMap(lines + [last], shares + [share]) == ShareMap(lines, shares)[last.variant := share]
  {
    assert (lines + [last])[..|lines|] == lines && (shares + [share])[..|lines|] == shares;
  }

  // ---------------------------------------------------------------------
  // Conservation of money at checkout
  // ---------------------------------------------------------------------

  /**
   When both reads see the same cart, the line discounts add up to the order
   discount, nothing is clamped, and lines outside the code get nothing.
   */
  lemma QuoteConserves(cart: seq<CartLine>, code: Option<DiscountCode>, shipping: nat)
    requires DistinctVariants(cart) && NonNegativePrices(cart)
    requires MakeQuote(cart, code, cart, shipping).Ok?
    ensures var q := MakeQuote(cart, code, cart, shipping).value;
            && q.subtotal == Sum(Totals(cart))
            && 0 <= q.discount <= q.subtotal
            && q.total == q.subtotal + shipping - q.discount
            && Sum(q.lineDiscounts) == q.discount
            && forall i | 0 <= i < |cart| && code.Some? && !IsEligible(code.value, cart[i]) :: q.lineDiscounts[i] == 0
  {
    var q := MakeQuote(cart, code, cart, shipping).value;
    if code.None? {
      SumOfZeros(q.lineDiscounts);
      SubtotalNonNegative(cart);
    } else {
      var c := code.value;
      var eligible := EligibleLines(c, cart);
      EligibleBounded(c, cart);
      DiscountBounded(c, Sum(Totals(eligible)));
      EligibleByVariant(c, cart);
      var shares := Allocate(q.discount, Totals(eligible));
      if q.discount > 0 {
        assert eligible != [];
        SharesAddUp(q.discount, Totals(eligible));
        LookUpSum(cart, Variants(eligible), shares);
        ShareMapKeys(eligible, shares);
        IneligibleGetNothing(c, cart, ShareMap(eligible, shares));
      } else {
        SumOfZeros(q.lineDiscounts);
      }
    }
  }

  lemma {:induction false} ShareMapAt(lines: seq<CartLine>, shares: seq<int>, k: nat)
    requires |shares| == |lines| && k < |lines| && DistinctVariants(lines)
    ensures lines[k].variant in ShareMap(lines, shares) && ShareMap(lines, shares)[lines[k].variant] == shares[k]
  {
    var n := |lines| - 1;
    if k < n {
      ShareMapAt(lines[..n], shares[..n], k);
    }
  }

  lemma {:induction false} EligibleDistinct(code: DiscountCode, lines: seq<CartLine>)
    requires DistinctVariants(lines)
    ensures DistinctVariants(EligibleLines(code, lines))
  {
    if lines != [] {
      var init, last := lines[..|lines| - 1], lines[|lines| - 1];
      assert lines == init + [last];
      DistinctPrefix(init, last);
      EligibleDistinct(code, init);
      EligibleMembers(code, init);
      assert forall i | 0 <= i < |EligibleLines(code, init)| :: EligibleLines(code, init)[i] in init;
    }
  }

  /**
   Each covered line carries its part of the order discount in proportion to what it costs: rounded
   down, and on the last covered line rounded up by less than one unit for each other.
   */
  lemma LineCarriesItsShare(cart: seq<CartLine>, code: DiscountCode, shipping: nat, i: nat, k: nat)
    requires DistinctVariants(cart) && NonNegativePrices(cart) && i < |cart|
    requires MakeQuote(cart, Some(code), cart, shipping).Ok?
    requires MakeQuote(cart, Some(code), cart, shipping).value.discount > 0
    requires k < |EligibleLines(code, cart)| && cart[i] == EligibleLines(code, cart)[k]
    ensures var q := MakeQuote(cart, Some(code), cart, shipping).value; var covered := EligibleLines(code, cart);
            var worth := Sum(Totals(covered));
            && worth > 0
            && if k < |covered| - 1 then RoundedDown(q.discount, cart[i].Total(), worth, q.lineDiscounts[i])
               else RoundedUp(q.discount, cart[i].Total(), worth, q.lineDiscounts[i], |covered| - 1)
  {
    var q := MakeQuote(cart, Some(code), cart, shipping).value;
    var covered := EligibleLines(code, cart);
    DiscountBounded(code, Sum(Totals(covered)));
    LineCarries(cart, code, q.discount, i, k);
    CoveredIsNonNegative(code, cart);
    AllocationBounds(q.discount, Totals(covered));
  }

  lemma CoveredIsNonNegative(code: DiscountCode, cart: seq<CartLine>)
    requires NonNegativePrices(cart)
    ensures forall w <- Totals(EligibleLines(code, cart)) :: w >= 0
  {
    var covered := EligibleLines(code, cart);
    EligibleMembers(code, cart);
    forall w | w in Totals(covered)
      ensures w >= 0
    {
      var j :| 0 <= j < |covered| && Totals(covered)[j] == w;
      assert covered[j] in cart;
    }
  }

  /** The line that is number `k` of the covered ones carries share number `k`. */
  lemma LineCarries(cart: seq<CartLine>, code: DiscountCode, discount: int, i: nat, k: nat)
    requires DistinctVariants(cart) && i < |cart| && discount > 0
    requires k < |EligibleLines(code, cart)| && cart[i] == EligibleLines(code, cart)[k]
    ensures var covered := EligibleLines(code, cart);
            LineDiscounts(cart, Evaluation(discount, Variants(covered)))[i] == Allocate(discount, Totals(covered))[k]
  {
    var covered := EligibleLines(code, cart);
    EligibleByVariant(code, cart);
    EligibleDistinct(code, cart);
    ShareMapAt(covered, Allocate(discount, Totals(covered)), k);
  }

  /** Without a discount every line carries nothing. */
  lemma NoDiscountOnLines(cart: seq<CartLine>, e: Evaluation)
    requires e.discount <= 0 || e.eligible == []
    ensures forall i | 0 <= i < |cart| :: LineDiscounts(cart, e)[i] == 0
  {
  }

  /** A quote is refused if and only if the cart is empty or its code is refused on the second read. */
  lemma QuotedIff(cart: seq<CartLine>, code: Option<DiscountCode>, cartAgain: seq<CartLine>, shipping: nat)
    ensures MakeQuote(cart, code, cartAgain, shipping).Ok? <==>
              cart != [] && (code.Some? ==> Evaluate(code.value, cartAgain).Ok?)
    ensures MakeQuote(cart, code, cartAgain, shipping).Err? ==>
              MakeQuote(cart, code, cartAgain, shipping) == Err(BadRequest)
  {
    if code.Some? {
      EvaluatedIff(code.value, cartAgain);
    }
  }

  lemma SubtotalNonNegative(cart: seq<CartLine>)
    requires NonNegativePrices(cart)
    ensures Sum(Totals(cart)) >= 0
  {
    EligibleBounded(DiscountCode(Percent, 0, 0, 0, {}, {}), cart);
  }

  lemma IneligibleGetNothing(code: DiscountCode, cart: seq<CartLine>, m: map<int, int>)
    requires DistinctVariants(cart)
    requires forall v :: v in m ==> exists l :: l in EligibleLines(code, cart) && l.variant == v
    ensures forall i | 0 <= i < |cart| && !IsEligible(code, cart[i]) :: LookUp(cart, m)[i] == 0
  {
    EligibleMembers(code, cart);
    forall i | 0 <= i < |cart| && !IsEligible(code, cart[i])
      ensures cart[i].variant !in m
    {
      if cart[i].variant in m {
        var l :| l in EligibleLines(code, cart) && l.variant == cart[i].variant;
        SameVariantSameLine(cart, l, cart[i]);
      }
    }
  }

  /**
   When the cart changes between the two reads the promise fails: a code worth
   500 on the cart as it was is applied to an order of 100.
   */
  lemma ChangedCartBreaksQuote()
    ensures MakeQuote([BOUGHT], Some(FIVE_HUNDRED_OFF), [PLANNED], 0) == Ok(Quote(100, 500, 0, [0]))
  {
    PlannedEvaluation();
    QuoteOf([BOUGHT], FIVE_HUNDRED_OFF, [PLANNED], 0, Evaluation(500, [1]));
    assert Totals([BOUGHT]) == [] + [100];
    SumAppend([], 100);
    NothingCovered();
  }

  lemma QuoteOf(cart: seq<CartLine>, code: DiscountCode, cartAgain: seq<CartLine>, shipping: nat, e: Evaluation)
    requires cart != [] && Evaluate(code, cartAgain) == Ok(e)
    ensures var goods := Sum(Totals(cart));
            MakeQuote(cart, Some(code), cartAgain, shipping)
            == Ok(Quote(goods, e.discount, Max(0, goods + shipping - e.discount), LineDiscounts(cart, e)))
  {
  }

  const PLANNED := CartLine(1, 1, {}, 1000, 1)
  const BOUGHT := CartLine(2, 2, {}, 100, 1)
  const FIVE_HUNDRED_OFF := DiscountCode(Fixed, 500, 0, 0, {}, {})

  lemma PlannedEvaluation()
    ensures Evaluate(FIVE_HUNDRED_OFF, [PLANNED]) == Ok(Evaluation(500, [1]))
  {
    assert Totals([PLANNED]) == [] + [1000];
    SumAppend([], 1000);
    assert [PLANNED][..0] == [];
    assert EligibleLines(FIVE_HUNDRED_OFF, [PLANNED]) == [PLANNED];
    assert Variants([PLANNED]) == [1];
  }

  lemma NothingCovered()
    ensures LineDiscounts([BOUGHT], Evaluation(500, [1])) == [0]
  {
    assert [BOUGHT][..0] == [];
    assert LinesOf([BOUGHT], [1]) == [];
    assert ShareMap([], Allocate(500, Totals([]))) == map[];
  }

  /**
   Exactly when it holds, for any two reads. With `amount` what the code takes off
   `cartAgain`: the line discounts add up to the order discount if and only if that
   is nothing or the covered lines still in `cart` cost something, and the total is
   not clamped if and only if it is within the goods of `cart` and the shipping.
   */
  lemma {:induction false} QuoteAddsUpIff(
    cart: seq<CartLine>, code: DiscountCode, cartAgain: seq<CartLine>, shipping: nat)
    requires DistinctVariants(cart) && MakeQuote(cart, Some(code), cartAgain, shipping).Ok?
    ensures var q := MakeQuote(cart, Some(code), cartAgain, shipping).value;
            var goods := Sum(Totals(cart));
            var amount := DiscountAmount(code, Sum(Totals(EligibleLines(code, cartAgain))));
            var covered := LinesOf(cart, Variants(EligibleLines(code, cartAgain)));
            && (Sum(q.lineDiscounts) == q.discount <==> amount == 0 || Sum(Totals(covered)) > 0)
            && (q.total == q.subtotal + shipping - q.discount <==> amount <= goods + shipping)
  {
    var q := MakeQuote(cart, Some(code), cartAgain, shipping).value;
    var eligible := EligibleLines(code, cartAgain);
    var covered := LinesOf(cart, Variants(eligible));
    DiscountBounded(code, Sum(Totals(eligible)));
    if q.discount > 0 {
      assert eligible != [];
      SharesAddUp(q.discount, Totals(covered));
      LookUpSum(cart, Variants(eligible), Allocate(q.discount, Totals(covered)));
    } else {
      SumOfZeros(q.lineDiscounts);
    }
  }

  /**
   A payment is refused if and only if a wallet alone falls short, or something is left for the
   gateway and none is named.
   */
  lemma SplitRefusedIff(pay: PaymentMethod, balance: int, total: nat, hasGateway: bool)
    ensures SplitPayment(pay, balance, total, hasGateway).Err? <==>
              SplitPayment(pay, balance, total, hasGateway) == Err(BadRequest)
    ensures SplitPayment(pay, balance, total, hasGateway).Err? <==>
              match pay
              case FreightCollect => false
              case Wallet => balance < total
              case Mixed => balance < total && !hasGateway
              case Gateway => total > 0 && !hasGateway
  {
  }

  /**
   Which part pays what: freight collect takes nothing now, a gateway payment takes nothing from the
   wallet, a wallet payment nothing from the gateway, and a mixed one as much from the wallet as
   there is, so that the gateway is used only for what the whole balance does not cover.
   */
  lemma SplitUsesWalletFirst(pay: PaymentMethod, balance: int, total: nat, hasGateway: bool, part: int)
    requires SplitPayment(pay, balance, total, hasGateway).Ok?
    ensures var s := SplitPayment(pay, balance, total, hasGateway).value;
            match pay
            case FreightCollect => s.wallet == 0 && s.gateway == 0
            case Gateway => s.wallet == 0 && s.gateway == total
            case Wallet => s.wallet == total && s.gateway == 0
            case Mixed =>
              && s.wallet + s.gateway == total
              && (part <= s.wallet <==> part <= balance && part <= total)
              && (s.gateway > 0 <==> balance < total)
              && (s.gateway > 0 ==> s.wallet == balance)
  {
  }

  /**
   The two parts of every prepaid payment make up the total. What is really
   collected (a part is booked only when positive) exceeds the total by the debt
   of the wallet, so it is exact if and only if the wallet was not overdrawn.
   */
  lemma SplitCovers(pay: PaymentMethod, balance: int, total: int, hasGateway: bool)
    requires total >= 0 && !pay.FreightCollect?
    requires SplitPayment(pay, balance, total, hasGateway).Ok?
    ensures var s := SplitPayment(pay, balance, total, hasGateway).value;
            && s.wallet + s.gateway == total
            && s.gateway >= 0
            && s.wallet <= Max(0, balance)
            && Max(0, s.wallet) + s.gateway == total + Debt(pay, balance)
            && (Max(0, s.wallet) + s.gateway == total <==> !(pay.Mixed? && balance < 0))
  {
  }

  /** Cart to payment: goods minus line discounts plus shipping is what is charged. */
  lemma CheckoutConserves(
    cart: seq<CartLine>, code: Option<DiscountCode>, shipping: nat,
    pay: PaymentMethod, balance: nat, hasGateway: bool)
    requires DistinctVariants(cart) && NonNegativePrices(cart) && !pay.FreightCollect?
    requires MakeQuote(cart, code, cart, shipping).Ok?
    requires SplitPayment(pay, balance, MakeQuote(cart, code, cart, shipping).value.total, hasGateway).Ok?
    ensures var q := MakeQuote(cart, code, cart, shipping).value;
            var s := SplitPayment(pay, balance, q.total, hasGateway).value;
            && s.wallet >= 0 && s.gateway >= 0
            && s.wallet + s.gateway == Sum(Totals(cart)) - Sum(q.lineDiscounts) + shipping
  {
    QuoteConserves(cart, code, shipping);
    SplitCovers(pay, balance, MakeQuote(cart, code, cart, shipping).value.total, hasGateway);
  }
}
