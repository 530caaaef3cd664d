/**
 The price of a variant, and the two ways the shop takes the product discount off
 it: the pricing engine (product page, price index) and the cart (orders).
 Prices before rounding are reals; amounts are integers.
 */
module Pricing {
  import opened Options

  datatype ModifierKind = Percentage | FixedSource | FixedIrt

  datatype Modifier = Modifier(kind: Option<ModifierKind>, value: Option<real>)

  datatype PricingMode = FixedPrice | CurrencyBased

  datatype Product = Product(
    mode: PricingMode,
    basePrice: int,
    sourcePrice: Option<real>,
    bufferPercent: Option<real>,
    discountKind: Option<DiscountKind>,
    discountValue: Option<int>)

  datatype VariantPricing = VariantPricing(priceAdjustment: int, attributes: seq<Modifier>)

  datatype Breakdown = Breakdown(finalPrice: int, originalPrice: int, discount: int)

  function OrZero(x: Option<real>): real {
    if x.Some? then x.value else 0.0
  }

  /** Math.round: halves go up, also below zero. */
  function Round(x: real): int {
    (x + 0.5).Floor
  }

  function MinReal(a: real, b: real): real { if a <= b then a else b }
  function MaxReal(a: real, b: real): real { if a >= b then a else b }

  // ---------------------------------------------------------------------
  // The pricing engine
  // ---------------------------------------------------------------------

  /** The part of modifier `m` that counts towards the sum of `kind`. */
  function Part(kind: ModifierKind, m: Modifier): real {
    if m.kind == Some(kind) then OrZero(m.value) else 0.0
  }

  function SumOf(kind: ModifierKind, mods: seq<Modifier>): real {
    if mods == [] then 0.0
    else SumOf(kind, mods[..|mods| - 1]) + Part(kind, mods[|mods| - 1])
  }

  function PercentOf(amount: real, percent: real): real {
    amount * (percent / 100.0)
  }

  predicate Accepts(mode: PricingMode, m: Modifier) {
    mode.FixedPrice? ==> m.kind != Some(FixedSource)
  }

  predicate AllAccepted(mode: PricingMode, mods: seq<Modifier>) {
    forall i | 0 <= i < |mods| :: Accepts(mode, mods[i])
  }

  /** The amount in the source currency with its modifiers. */
  function SourceSum(base: real, mods: seq<Modifier>): real {
    base + PercentOf(base, SumOf(Percentage, mods)) + SumOf(FixedSource, mods)
  }

  /** The price before rounding and before the product discount. */
  function RawPrice(product: Product, rate: Option<real>, mods: seq<Modifier>): real {
    if product.mode.FixedPrice? then
      product.basePrice as real + SumOf(FixedIrt, mods)
      + PercentOf(product.basePrice as real, SumOf(Percentage, mods))
    else
      var source := SourceSum(OrZero(product.sourcePrice), mods);
      Buffered(Convert(source, rate), OrZero(product.bufferPercent)) + SumOf(FixedIrt, mods)
  }

  function Convert(source: real, rate: Option<real>): real {
    source * OrZero(rate)
  }

  function Buffered(converted: real, percent: real): real {
    if percent != 0.0 then converted + PercentOf(converted, percent) else converted
  }

  predicate HasDiscount(kind: Option<DiscountKind>, value: Option<int>) {
    kind.Some? && value.Some? && value.value > 0
  }

  function TakeDiscount(price: real, kind: Option<DiscountKind>, value: Option<int>): Breakdown {
    if !HasDiscount(kind, value) then Breakdown(Round(price), Round(price), 0)
    else
      var v := value.value;
      var raw := if kind.value.Percent?
                 then PercentOf(price, MinReal(v as real, 100.0))
                 else v as real;
      var discount := Round(MaxReal(0.0, MinReal(raw, price)));
      Breakdown(Round(price) - discount, Round(price), discount)
  }

  function FinalPrice(product: Product, rate: Option<real>, mods: seq<Modifier>): Result<Breakdown> {
    if !AllAccepted(product.mode, mods) then Err(BadRequest)
    else Ok(TakeDiscount(RawPrice(product, rate, mods), product.discountKind, product.discountValue))
  }

  function VariantModifiers(v: VariantPricing): seq<Modifier> {
    v.attributes
    + (if v.priceAdjustment != 0 then [Modifier(Some(FixedIrt), Some(v.priceAdjustment as real))] else [])
  }

  function VariantPrice(product: Product, rate: Option<real>, v: VariantPricing): Result<Breakdown> {
    FinalPrice(product, rate, VariantModifiers(v))
  }

  lemma SumOfStep(kind: ModifierKind, mods: seq<Modifier>, i: nat)
    requires i < |mods|
    ensures SumOf(kind, mods[..i + 1]) == SumOf(kind, mods[..i]) + Part(kind, mods[i])
  {
    assert mods[..i + 1][..i] == mods[..i];
  }

  lemma SpreadPercent(base: real, s: real, v: real)
    ensures PercentOf(base, s + v) == PercentOf(base, s) + PercentOf(base, v)
  {
  }

  /** The engine's accumulating loops, proved to compute `FinalPrice`. */
  method CalculateFinalPrice(product: Product, rate: Option<real>, mods: seq<Modifier>)
    returns (r: Result<Breakdown>)
    ensures r == FinalPrice(product, rate, mods)
  {
    if product.mode.FixedPrice? {
      r := FixedModePrice(product, mods);
    } else {
      r := CurrencyModePrice(product, rate, mods);
    }
  }

  method FixedModePrice(product: Product, mods: seq<Modifier>) returns (r: Result<Breakdown>)
    requires product.mode.FixedPrice?
    ensures r == FinalPrice(product, None, mods)
  {
    var fixedSum, percentSum := 0.0, 0.0;
    for i := 0 to |mods|
      invariant fixedSum == SumOf(FixedIrt, mods[..i])
      invariant percentSum == SumOf(Percentage, mods[..i])
      invariant forall j | 0 <= j < i :: Accepts(FixedPrice, mods[j])
    {
      var m := mods[i];
      SumOfStep(FixedIrt, mods, i);
      SumOfStep(Percentage, mods, i);
      match m.kind {
        case None =>
        case Some(FixedIrt) => fixedSum := fixedSum + OrZero(m.value);
        case Some(Percentage) => percentSum := percentSum + OrZero(m.value);
        case Some(FixedSource) =>
          assert !Accepts(FixedPrice, mods[i]);
          return Err(BadRequest);
      }
    }
    assert mods[..|mods|] == mods;
    var price := product.basePrice as real + fixedSum + PercentOf(product.basePrice as real, percentSum);
    r := Ok(TakeDiscount(price, product.discountKind, product.discountValue));
  }

  method CurrencyModePrice(product: Product, rate: Option<real>, mods: seq<Modifier>)
    returns (r: Result<Breakdown>)
    requires product.mode.CurrencyBased?
    ensures r == FinalPrice(product, rate, mods)
  {
    var source := SourceAmount(OrZero(product.sourcePrice), mods);
    var converted := Convert(source, rate);
    var percent := OrZero(product.bufferPercent);
    if percent != 0.0 {
      converted := converted + PercentOf(converted, percent);
    }
    converted := AddFixed(converted, mods);
    r := Ok(TakeDiscount(converted, product.discountKind, product.discountValue));
  }

  method SourceAmount(base: real, mods: seq<Modifier>) returns (source: real)
    ensures source == SourceSum(base, mods)
  {
    source := base;
    assert PercentOf(base, 0.0) == 0.0;
    for i := 0 to |mods|
      invariant source == base + PercentOf(base, SumOf(Percentage, mods[..i])) + SumOf(FixedSource, mods[..i])
    {
      var m := mods[i];
      SumOfStep(Percentage, mods, i);
      SumOfStep(FixedSource, mods, i);
      SpreadPercent(base, SumOf(Percentage, mods[..i]), Part(Percentage, m));
      if m.kind == Some(Percentage) {
        source := source + PercentOf(base, OrZero(m.value));
      } else if m.kind == Some(FixedSource) {
        source := source + OrZero(m.value);
      }
    }
    assert mods[..|mods|] == mods;
  }

  method AddFixed(start: real, mods: seq<Modifier>) returns (price: real)
    ensures price == start + SumOf(FixedIrt, mods)
  {
    price := start;
    for i := 0 to |mods|
      invariant price == start + SumOf(FixedIrt, mods[..i])
    {
      SumOfStep(FixedIrt, mods, i);
      if mods[i].kind == Some(FixedIrt) {
        price := price + OrZero(mods[i].value);
      }
    }
    assert mods[..|mods|] == mods;
  }

  // ---------------------------------------------------------------------
  // What each modifier does to the price
  // ---------------------------------------------------------------------

  lemma SumOfAppend(kind: ModifierKind, mods: seq<Modifier>, m: Modifier)
    ensures SumOf(kind, mods + [m]) == SumOf(kind, mods) + Part(kind, m)
  {
    assert (mods + [m])[..|mods|] == mods;
  }

  /** The exchange of a source amount: at the rate, with the buffer on top. */
  function Exchanged(source: real, rate: Option<real>, bufferPercent: Option<real>): real {
    source * OrZero(rate) * (1.0 + OrZero(bufferPercent) / 100.0)
  }

  lemma BufferedIsExchanged(source: real, rate: Option<real>, bufferPercent: Option<real>)
    ensures Buffered(Convert(source, rate), OrZero(bufferPercent)) == Exchanged(source, rate, bufferPercent)
  {
    var x, p := source * OrZero(rate), OrZero(bufferPercent) / 100.0;
    assert x * (1.0 + p) == x + x * p;
  }

  /** Without modifiers: the base price, or the source price exchanged. */
  lemma PriceWithoutModifiers(product: Product, rate: Option<real>)
    ensures RawPrice(product, rate, []) ==
              if product.mode.FixedPrice? then product.basePrice as real
              else Exchanged(OrZero(product.sourcePrice), rate, product.bufferPercent)
  {
    assert PercentOf(product.basePrice as real, 0.0) == 0.0 && PercentOf(OrZero(product.sourcePrice), 0.0) == 0.0;
    BufferedIsExchanged(OrZero(product.sourcePrice), rate, product.bufferPercent);
  }

  /** What one more modifier adds to the price of a fixed-price product, where it is accepted. */
  function AddedToFixed(product: Product, m: Modifier): real {
    match m.kind
    case Some(FixedIrt) => OrZero(m.value)
    case Some(Percentage) => product.basePrice as real * OrZero(m.value) / 100.0
    case _ => 0.0
  }

  /** The same for a product priced in a foreign currency. */
  function AddedToCurrency(product: Product, rate: Option<real>, m: Modifier): real {
    match m.kind
    case Some(FixedIrt) => OrZero(m.value)
    case Some(Percentage) =>
      Exchanged(OrZero(product.sourcePrice) * OrZero(m.value) / 100.0, rate, product.bufferPercent)
    case Some(FixedSource) => Exchanged(OrZero(m.value), rate, product.bufferPercent)
    case None => 0.0
  }

  lemma ExchangedSum(a: real, b: real, rate: Option<real>, bufferPercent: Option<real>)
    ensures Exchanged(a + b, rate, bufferPercent)
         == Exchanged(a, rate, bufferPercent) + Exchanged(b, rate, bufferPercent)
  {
    var r, p := OrZero(rate), 1.0 + OrZero(bufferPercent) / 100.0;
    assert (a + b) * r == a * r + b * r;
    assert (a * r + b * r) * p == a * r * p + b * r * p;
  }

  lemma FixedStep(product: Product, rate: Option<real>, mods: seq<Modifier>, m: Modifier)
    requires product.mode.FixedPrice? && Accepts(product.mode, m)
    ensures RawPrice(product, rate, mods + [m]) == RawPrice(product, rate, mods) + AddedToFixed(product, m)
  {
    SumOfAppend(FixedIrt, mods, m);
    SumOfAppend(Percentage, mods, m);
    SpreadPercent(product.basePrice as real, SumOf(Percentage, mods), Part(Percentage, m));
    PercentIsProduct(product.basePrice as real, Part(Percentage, m));
  }

  /** What one more modifier adds to the amount in the source currency. */
  function AddedToSource(base: real, m: Modifier): real {
    match m.kind
    case Some(Percentage) => base * OrZero(m.value) / 100.0
    case Some(FixedSource) => OrZero(m.value)
    case _ => 0.0
  }

  lemma SourceStep(base: real, mods: seq<Modifier>, m: Modifier)
    ensures SourceSum(base, mods + [m]) == SourceSum(base, mods) + AddedToSource(base, m)
  {
    SumOfAppend(Percentage, mods, m);
    SumOfAppend(FixedSource, mods, m);
    SpreadPercent(base, SumOf(Percentage, mods), Part(Percentage, m));
    PercentIsProduct(base, Part(Percentage, m));
  }

  lemma CurrencyStep(product: Product, rate: Option<real>, mods: seq<Modifier>, m: Modifier)
    requires product.mode.CurrencyBased?
    ensures RawPrice(product, rate, mods + [m])
         == RawPrice(product, rate, mods) + AddedToCurrency(product, rate, m)
  {
    var base := OrZero(product.sourcePrice);
    CurrencyPrice(product, rate, mods);
    CurrencyPrice(product, rate, mods + [m]);
    SumOfAppend(FixedIrt, mods, m);
    SourceStep(base, mods, m);
    ExchangedSum(SourceSum(base, mods), AddedToSource(base, m), rate, product.bufferPercent);
    CurrencyPart(product, rate, m);
  }

  lemma CurrencyPrice(product: Product, rate: Option<real>, mods: seq<Modifier>)
    requires product.mode.CurrencyBased?
    ensures RawPrice(product, rate, mods)
         == Exchanged(SourceSum(OrZero(product.sourcePrice), mods), rate, product.bufferPercent) + SumOf(FixedIrt, mods)
  {
    BufferedIsExchanged(SourceSum(OrZero(product.sourcePrice), mods), rate, product.bufferPercent);
  }

  lemma CurrencyPart(product: Product, rate: Option<real>, m: Modifier)
    ensures AddedToCurrency(product, rate, m)
         == Exchanged(AddedToSource(OrZero(product.sourcePrice), m), rate, product.bufferPercent) + Part(FixedIrt, m)
  {
    assert Exchanged(0.0, rate, product.bufferPercent) == 0.0;
  }

  /**
   One more modifier, accepted by the engine: on a fixed-price product an IRT amount adds itself and
   a percentage its part of the base price; on a currency product an amount or a percentage in the
   source currency adds what it is worth at the rate with the buffer, and an IRT amount adds itself
   after the buffer. The price of any list follows from these steps.
   */
  lemma OneMoreModifier(product: Product, rate: Option<real>, mods: seq<Modifier>, m: Modifier)
    requires Accepts(product.mode, m)
    ensures RawPrice(product, rate, mods + [m]) - RawPrice(product, rate, mods) ==
              if product.mode.FixedPrice? then AddedToFixed(product, m) else AddedToCurrency(product, rate, m)
  {
    if product.mode.FixedPrice? {
      FixedStep(product, rate, mods, m);
    } else {
      CurrencyStep(product, rate, mods, m);
    }
  }

  /** A list is refused if and only if the price is fixed and a modifier is an amount in the source currency. */
  lemma PricedIff(product: Product, rate: Option<real>, mods: seq<Modifier>)
    ensures FinalPrice(product, rate, mods).Ok? <==>
              !(product.mode.FixedPrice? && exists m <- mods :: m.kind == Some(FixedSource))
    ensures FinalPrice(product, rate, mods).Ok? ==>
              FinalPrice(product, rate, mods).value
              == TakeDiscount(RawPrice(product, rate, mods), product.discountKind, product.discountValue)
  {
    if i :| 0 <= i < |mods| && !Accepts(product.mode, mods[i]) {
      assert mods[i] in mods;
    }
    if m :| m in mods && m.kind == Some(FixedSource) {
      var i :| 0 <= i < |mods| && mods[i] == m;
      assert product.mode.FixedPrice? ==> !Accepts(product.mode, mods[i]);
    }
  }

  /** The adjustment of a variant, in either mode, adds itself after everything else and is never refused. */
  lemma AdjustmentAddsItself(product: Product, rate: Option<real>, v: VariantPricing)
    ensures RawPrice(product, rate, VariantModifiers(v))
         == RawPrice(product, rate, v.attributes) + v.priceAdjustment as real
    ensures VariantPrice(product, rate, v).Ok? <==> FinalPrice(product, rate, v.attributes).Ok?
  {
    if v.priceAdjustment != 0 {
      OneMoreModifier(product, rate, v.attributes, Modifier(Some(FixedIrt), Some(v.priceAdjustment as real)));
    } else {
      assert VariantModifiers(v) == v.attributes;
    }
    PricedIff(product, rate, v.attributes);
    PricedIff(product, rate, VariantModifiers(v));
    assert forall m :: m in VariantModifiers(v) && m.kind == Some(FixedSource) <==>
                       m in v.attributes && m.kind == Some(FixedSource);
  }

  // ---------------------------------------------------------------------
  // The price depends on the modifiers only as a multiset
  // ---------------------------------------------------------------------

  lemma {:induction false} SumOfRemove(kind: ModifierKind, s: seq<Modifier>, i: nat)
    requires i < |s|
    ensures SumOf(kind, s) == SumOf(kind, s[..i] + s[i + 1..]) + Part(kind, s[i])
  {
    var n := |s| - 1;
    if i == n {
      assert s[..i] + s[i + 1..] == s[..n];
    } else {
      var t := s[..i] + s[i + 1..];
      SumOfRemove(kind, s[..n], i);
      assert t[..n - 1] == s[..n][..i] + s[..n][i + 1..];
      assert t[n - 1] == s[n];
    }
  }

  /** In a rearrangement of `init + [last]`, taking out `last` leaves a rearrangement of `init`. */
  lemma TakeOut<T>(init: seq<T>, last: T, b: seq<T>) returns (i: nat)
    requires multiset(init + [last]) == multiset(b)
    ensures i < |b| && b[i] == last && multiset(b[..i] + b[i + 1..]) == multiset(init)
    ensures |b| == |init| + 1
  {
    assert |b| == |multiset(b)| == |multiset(init + [last])|;
    assert last in multiset(init + [last]);
    assert last in b;
    i :| 0 <= i < |b| && b[i] == last;
    assert b == b[..i] + [last] + b[i + 1..];
    assert multiset(b) == multiset(b[..i] + b[i + 1..]) + multiset{last};
    assert multiset(init + [last]) == multiset(init) + multiset{last};
    assert multiset(b[..i] + b[i + 1..]) == multiset(b) - multiset{last} == multiset(init);
  }

  lemma {:induction false} SumOfPermuted(kind: ModifierKind, a: seq<Modifier>, b: seq<Modifier>)
    requires multiset(a) == multiset(b)
    ensures SumOf(kind, a) == SumOf(kind, b)
    decreases |a|
  {
    if a == [] {
      assert |multiset(b)| == 0;
    } else {
      var n := |a| - 1;
      assert a == a[..n] + [a[n]];
      var i := TakeOut(a[..n], a[n], b);
      SumOfPermuted(kind, a[..n], b[..i] + b[i + 1..]);
      SumOfRemove(kind, b, i);
    }
  }

  lemma AcceptedIgnoresOrder(mode: PricingMode, a: seq<Modifier>, b: seq<Modifier>)
    requires multiset(a) == multiset(b) && AllAccepted(mode, a)
    ensures AllAccepted(mode, b)
  {
    forall i | 0 <= i < |b|
      ensures Accepts(mode, b[i])
    {
      assert b[i] in multiset(a);
    }
  }

  lemma PriceIgnoresOrder(product: Product, rate: Option<real>, a: seq<Modifier>, b: seq<Modifier>)
    requires multiset(a) == multiset(b)
    ensures FinalPrice(product, rate, a) == FinalPrice(product, rate, b)
  {
    SumOfPermuted(Percentage, a, b);
    SumOfPermuted(FixedSource, a, b);
    SumOfPermuted(FixedIrt, a, b);
    if AllAccepted(product.mode, a) {
      AcceptedIgnoresOrder(product.mode, a, b);
    }
    if AllAccepted(product.mode, b) {
      AcceptedIgnoresOrder(product.mode, b, a);
    }
  }

  // ---------------------------------------------------------------------
  // The cart's own discount
  // ---------------------------------------------------------------------

  datatype Effective = Effective(originalPrice: int, unitPrice: int, discount: int, isDiscounted: bool)

  function EffectivePrice(
    basePrice: int, adjustment: int, kind: Option<DiscountKind>, value: Option<int>,
    startsAt: Option<int>, endsAt: Option<int>, now: int): Effective
  {
    var original := basePrice + adjustment;
    var active := (startsAt.None? || startsAt.value <= now) && (endsAt.None? || endsAt.value >= now);
    if kind.None? || value.None? || value.value == 0 || !active then Effective(original, original, 0, false)
    else
      var discount := if kind.value.Percent?
                      then Round((original * value.value) as real / 100.0)
                      else value.value;
      var unit := if original - discount >= 0 then original - discount else 0;
      Effective(original, unit, original - unit, true)
  }

  /** The cart rounds the undiscounted price first and takes the discount off the integer. */
  function CartPriceOf(price: real, kind: Option<DiscountKind>, value: Option<int>): int {
    EffectivePrice(Round(price), 0, kind, value, None, None, 0).unitPrice
  }

  function CartPrice(product: Product, rate: Option<real>, v: VariantPricing): Result<int> {
    var undiscounted := product.(discountKind := None, discountValue := None);
    match VariantPrice(undiscounted, rate, v)
    case Err(e) => Err(e)
    case Ok(b) =>
      Ok(EffectivePrice(b.finalPrice, 0, product.discountKind, product.discountValue, None, None, 0).unitPrice)
  }

  lemma RoundWithinHalf(x: real)
    ensures -0.5 <= Round(x) as real - x <= 0.5
  {
  }

  lemma RoundedHundredth(x: int)
    ensures -50 <= 100 * Round(x as real / 100.0) - x <= 50
  {
    RoundWithinHalf(x as real / 100.0);
  }

  lemma PercentToTheUnit(o: int, v: int)
    requires o >= 0 && 0 <= v <= 100
    ensures var d := Round((o * v) as real / 100.0); d <= o && -50 <= 100 * (o - d) - o * (100 - v) <= 50
  {
    var x, y := o * v, o * (100 - v);
    assert y == 100 * o - x;
    NonNegativeTimes(o, 100 - v);
    RoundedHundredth(x);
  }

  lemma NonNegativeTimes(a: int, b: int)
    requires a >= 0 && b >= 0
    ensures a * b >= 0
  {
  }

  /**
   The cart takes a discount off if and only if there is one of a value other than zero and the time
   is within its window, both ends included. Off a price that is not negative an amount is taken
   as far as the price goes, and a percentage up to 100 to the nearest unit.
   */
  lemma CartTakesDiscount(
    basePrice: int, adjustment: int, kind: Option<DiscountKind>, value: Option<int>,
    startsAt: Option<int>, endsAt: Option<int>, now: int)
    ensures var e := EffectivePrice(basePrice, adjustment, kind, value, startsAt, endsAt, now);
            var o := basePrice + adjustment;
            && e.originalPrice == o && e.unitPrice + e.discount == o
            && (e.isDiscounted <==>
                  && kind.Some? && value.Some? && value.value != 0
                  && (startsAt.Some? ==> startsAt.value <= now) && (endsAt.Some? ==> now <= endsAt.value))
            && (!e.isDiscounted ==> e.unitPrice == o)
            && (e.isDiscounted && kind.value.Fixed? ==>
                  e.unitPrice == if o >= value.value then o - value.value else 0)
            && (e.isDiscounted && kind.value.Percent? && o >= 0 && 0 <= value.value <= 100 ==>
                  -50 <= 100 * e.unitPrice - o * (100 - value.value) <= 50)
  {
    var o := basePrice + adjustment;
    if value.Some? && kind == Some(Percent) && o >= 0 && 0 <= value.value <= 100 {
      PercentToTheUnit(o, value.value);
    }
  }

  /**
   The engine takes a discount of a positive value off a price that is not negative: an amount as far
   as the price goes, a percentage up to all of it, the difference and the price each rounded.
   */
  lemma EngineTakesDiscount(price: real, kind: Option<DiscountKind>, value: Option<int>)
    ensures var b := TakeDiscount(price, kind, value);
            && b.originalPrice == Round(price) && b.finalPrice + b.discount == b.originalPrice
            && (kind.None? || value.None? || value.value <= 0 ==> b.discount == 0)
            && (kind == Some(Fixed) && value.Some? && value.value > 0 && price >= 0.0 ==>
                  b.discount == if value.value as real <= price then value.value else Round(price))
            && (kind == Some(Percent) && value.Some? && value.value > 0 && price >= 0.0 ==>
                  b.discount == Round(if value.value <= 100 then price * value.value as real / 100.0 else price))
  {
    if kind == Some(Percent) && value.Some? && value.value > 0 && price >= 0.0 {
      var v := value.value;
      if v <= 100 {
        PercentIsProduct(price, v as real);
        PercentScales(price, v as real);
      } else {
        assert PercentOf(price, 100.0) == price;
      }
    }
    if kind == Some(Fixed) && value.Some? && value.value > 0 && value.value as real <= price {
      RoundOfInt(value.value);
    }
  }

  // ---------------------------------------------------------------------
  // The two implementations agree
  // ---------------------------------------------------------------------

  predicate IsWhole(x: real) { x == x.Floor as real }

  function Distance(a: int, b: int): nat { if a <= b then b - a else a - b }

  lemma RoundMonotone(x: real, y: real)
    requires x <= y
    ensures Round(x) <= Round(y)
  {
  }

  lemma RoundOfInt(n: int)
    ensures Round(n as real) == n
  {
  }

  /** Values half a unit apart round to the same or to neighbouring integers. */
  lemma RoundNear(x: real, y: real)
    requires -0.5 <= x - y <= 0.5
    ensures Distance(Round(x), Round(y)) <= 1
  {
  }

  lemma TimesPercent(x: real, percent: real)
    requires 0.0 <= percent <= 100.0
    ensures x >= 0.0 ==> 0.0 <= x * percent <= x * 100.0
    ensures x <= 0.0 ==> x * 100.0 <= x * percent <= 0.0
  {
  }

  lemma PercentIsProduct(x: real, percent: real)
    ensures PercentOf(x, percent) == x * percent / 100.0
  {
  }

  lemma Hundredth(x: real, y: real)
    ensures 0.0 <= y <= x * 100.0 ==> 0.0 <= y / 100.0 <= x
    ensures x * 100.0 <= y <= 0.0 ==> x <= y / 100.0 <= 0.0
  {
  }

  lemma PercentScales(x: real, percent: real)
    requires 0.0 <= percent <= 100.0
    ensures x >= 0.0 ==> 0.0 <= PercentOf(x, percent) <= x
    ensures x <= 0.0 ==> x <= PercentOf(x, percent) <= 0.0
  {
    var y := x * percent;
    assert PercentOf(x, percent) == y / 100.0 by { PercentIsProduct(x, percent); }
    assert (x >= 0.0 ==> 0.0 <= y <= x * 100.0) && (x <= 0.0 ==> x * 100.0 <= y <= 0.0) by { TimesPercent(x, percent); }
    Hundredth(x, y);
  }

  lemma FixedDiscountsAgree(price: real, v: int)
    requires price >= 0.0 && v > 0
    ensures var page := TakeDiscount(price, Some(Fixed), Some(v)).finalPrice;
            CartPriceOf(price, Some(Fixed), Some(v)) == page && 0 <= page <= Round(price)
  {
    RoundMonotone(0.0, price);
    RoundOfInt(v);
    if v as real <= price {
      RoundMonotone(v as real, price);
    } else {
      RoundMonotone(price, v as real);
    }
  }

  /** Rounding before or after taking a part `q` of the price: at most one unit apart. */
  lemma PartOfRounded(price: real, percent: real)
    requires price >= 0.0 && 0.0 <= percent <= 100.0
    ensures var o := Round(price);
            && 0 <= Round(PercentOf(price, percent)) <= o && 0 <= Round(PercentOf(o as real, percent)) <= o
            && Distance(Round(PercentOf(price, percent)), Round(PercentOf(o as real, percent))) <= 1
            && PercentOf(price, percent) <= price
  {
    var o := Round(price);
    PercentFacts(price, o as real, percent);
    RoundParts(price, PercentOf(price, percent), PercentOf(o as real, percent));
  }

  lemma PercentFacts(x: real, y: real, percent: real)
    requires x >= 0.0 && y >= 0.0 && 0.0 <= percent <= 100.0 && -0.5 <= x - y <= 0.5
    ensures 0.0 <= PercentOf(x, percent) <= x && 0.0 <= PercentOf(y, percent) <= y
    ensures -0.5 <= PercentOf(x, percent) - PercentOf(y, percent) <= 0.5
  {
    PercentScales(x, percent);
    PercentScales(y, percent);
    PercentScales(x - y, percent);
    assert PercentOf(x - y, percent) == PercentOf(x, percent) - PercentOf(y, percent);
  }

  lemma RoundParts(price: real, x: real, y: real)
    requires 0.0 <= x <= price && 0.0 <= y <= Round(price) as real && -0.5 <= x - y <= 0.5
    ensures 0 <= Round(x) <= Round(price) && 0 <= Round(y) <= Round(price)
    ensures Distance(Round(x), Round(y)) <= 1
  {
    RoundMonotone(x, price);
    RoundMonotone(y, Round(price) as real);
    RoundOfInt(Round(price));
    RoundNear(x, y);
  }

  /** The cart multiplies integers before it divides; the part taken is the same. */
  lemma CartPart(o: int, v: int)
    ensures (o * v) as real / 100.0 == PercentOf(o as real, v as real)
  {
    assert (o * v) as real == o as real * v as real;
  }

  lemma FullDiscountsAgree(price: real, v: int)
    requires price >= 0.0 && v > 100
    ensures TakeDiscount(price, Some(Percent), Some(v)).finalPrice == 0
    ensures CartPriceOf(price, Some(Percent), Some(v)) == 0
  {
    assert PercentOf(price, 100.0) == price;
    var o := Round(price);
    RoundMonotone(0.0, price);
    assert o * v >= o * 100;
    RoundOfInt(o);
    RoundMonotone(o as real, (o * v) as real / 100.0);
  }

  lemma PercentDiscountsAgree(price: real, v: int)
    requires price >= 0.0 && v > 0
    ensures var page := TakeDiscount(price, Some(Percent), Some(v)).finalPrice;
            var cart := CartPriceOf(price, Some(Percent), Some(v));
            && 0 <= page <= Round(price) && 0 <= cart <= Round(price)
            && Distance(page, cart) <= 1
            && (IsWhole(price) ==> page == cart)
  {
    RoundMonotone(0.0, price);
    if v <= 100 {
      PartOfRounded(price, v as real);
      CartPart(Round(price), v);
      if price == price.Floor as real {
        RoundOfInt(price.Floor);
      }
    } else {
      FullDiscountsAgree(price, v);
    }
  }

  /**
   For every non-negative price before discount, product page and cart differ by
   at most one unit, and not at all for fixed discounts and whole prices; both
   lie between zero and the rounded price.
   */
  lemma DiscountsAgree(price: real, kind: Option<DiscountKind>, value: Option<int>)
    requires price >= 0.0 && (value.Some? ==> value.value >= 0)
    ensures var page := TakeDiscount(price, kind, value).finalPrice;
            var cart := CartPriceOf(price, kind, value);
            && 0 <= page <= Round(price) && 0 <= cart <= Round(price)
            && Distance(page, cart) <= 1
            && (kind != Some(Percent) || IsWhole(price) ==> page == cart)
  {
    RoundMonotone(0.0, price);
    if HasDiscount(kind, value) {
      if kind.value.Fixed? {
        FixedDiscountsAgree(price, value.value);
      } else {
        PercentDiscountsAgree(price, value.value);
      }
    }
  }

  /** The same for a variant: what the page shows and what the cart charges. */
  lemma PageAndCartAgree(product: Product, rate: Option<real>, v: VariantPricing)
    requires RawPrice(product, rate, VariantModifiers(v)) >= 0.0
    requires product.discountValue.Some? ==> product.discountValue.value >= 0
    ensures VariantPrice(product, rate, v).Ok? <==> CartPrice(product, rate, v).Ok?
    ensures VariantPrice(product, rate, v).Ok? ==>
              var page := VariantPrice(product, rate, v).value; var cart := CartPrice(product, rate, v).value;
              && 0 <= page.finalPrice <= page.originalPrice && 0 <= cart <= page.originalPrice
              && Distance(page.finalPrice, cart) <= 1
              && (product.discountKind != Some(Percent) || IsWhole(RawPrice(product, rate, VariantModifiers(v))) ==>
                    page.finalPrice == cart)
  {
    var price := RawPrice(product, rate, VariantModifiers(v));
    var undiscounted := product.(discountKind := None, discountValue := None);
    assert RawPrice(undiscounted, rate, VariantModifiers(v)) == price;
    DiscountsAgree(price, product.discountKind, product.discountValue);
  }

  /** The difference of one is real: half a unit at fifty percent. */
  lemma AgreementIsNotExact()
    ensures TakeDiscount(0.5, Some(Percent), Some(50)).finalPrice == 1
    ensures CartPriceOf(0.5, Some(Percent), Some(50)) == 0
  {
    assert PercentOf(0.5, 50.0) == 0.25;
    assert (0.25 + 0.5).Floor == 0;
    assert Round(0.5) == 1;
    assert (1 * 50) as real / 100.0 == 0.5;
  }

  /**
   Below zero the two part ways: a product of 50 with a modifier of -150 and 10
   percent off is shown at -100 and charged at 0.
   */
  lemma NegativePricesDisagree()
    ensures var product := Product(FixedPrice, 50, None, None, Some(Percent), Some(10));
            var v := VariantPricing(0, [Modifier(Some(FixedIrt), Some(-150.0))]);
            && VariantPrice(product, None, v) == Ok(Breakdown(-100, -100, 0))
            && CartPrice(product, None, v) == Ok(0)
  {
    var product := Product(FixedPrice, 50, None, None, Some(Percent), Some(10));
    var m := Modifier(Some(FixedIrt), Some(-150.0));
    var v := VariantPricing(0, [m]);
    assert VariantModifiers(v) == [m] && [m][..0] == [];
    assert SumOf(FixedIrt, [m]) == -150.0 && SumOf(Percentage, [m]) == 0.0;
    assert PercentOf(50.0, 0.0) == 0.0;
    assert RawPrice(product, None, [m]) == -100.0;
    assert PercentOf(-100.0, 10.0) == -10.0;
    RoundOfInt(-100);
    RoundOfInt(0);
    assert ((-100) * 10) as real / 100.0 == -10.0;
    RoundOfInt(-10);
  }

  /** Exactly: below zero they agree only where the price rounds to zero. */
  lemma NegativePricesAgreeIff(price: real, kind: Option<DiscountKind>, value: Option<int>)
    requires price < 0.0 && HasDiscount(kind, value)
    ensures TakeDiscount(price, kind, value).finalPrice == Round(price)
    ensures TakeDiscount(price, kind, value).finalPrice == CartPriceOf(price, kind, value) <==> Round(price) == 0
  {
    RoundMonotone(price, 0.0);
    RoundOfInt(0);
    if Round(price) == 0 {
      assert (0 * value.value) as real / 100.0 == 0.0;
    }
  }

  /** So a discount keeps the final price from going below zero if and only if the price rounds to no less. */
  lemma FinalPriceNonNegativeIff(price: real, kind: Option<DiscountKind>, value: Option<int>)
    requires HasDiscount(kind, value)
    ensures TakeDiscount(price, kind, value).finalPrice >= 0 <==> Round(price) >= 0
  {
    if price >= 0.0 {
      DiscountsAgree(price, kind, value);
    } else {
      NegativePricesAgreeIff(price, kind, value);
    }
  }

  /** For a variant priced below zero: page and cart agree if and only if its price rounds to zero. */
  lemma PageAndCartAgreeBelowZeroIff(product: Product, rate: Option<real>, v: VariantPricing)
    requires RawPrice(product, rate, VariantModifiers(v)) < 0.0
    requires HasDiscount(product.discountKind, product.discountValue) && AllAccepted(product.mode, VariantModifiers(v))
    ensures VariantPrice(product, rate, v).Ok? && CartPrice(product, rate, v).Ok?
    ensures VariantPrice(product, rate, v).value.finalPrice == CartPrice(product, rate, v).value
       <==> Round(RawPrice(product, rate, VariantModifiers(v))) == 0
  {
    var price := RawPrice(product, rate, VariantModifiers(v));
    var undiscounted := product.(discountKind := None, discountValue := None);
    assert RawPrice(undiscounted, rate, VariantModifiers(v)) == price;
    NegativePricesAgreeIff(price, product.discountKind, product.discountValue);
  }
}
