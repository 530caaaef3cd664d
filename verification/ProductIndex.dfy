/**
 The variants of one product and the figures stored on the product for filtering:
 lowest and highest price, and whether anything is in stock. Every change of a
 variant rewrites them; combination keys keep the variants distinct.
 */
module ProductIndex {
  import opened Options
  import opened Along
  import opened Pricing
  import opened ComboKey

  datatype Variant = Variant(
    id: nat,
    pricing: VariantPricing,
    valueIds: seq<nat>,
    comboKey: string,
    stock: nat,
    isActive: bool)

  datatype Index = Index(minPrice: int, maxPrice: int, isInStock: bool, hasDiscount: bool)

  datatype State = State(
    product: Product, rate: Option<real>, variants: seq<Variant>, index: Index, ordered: set<nat>, next: nat)

  datatype NewVariant = NewVariant(pricing: VariantPricing, valueIds: seq<nat>, stock: nat, isActive: bool)

  /** A partial update; the attribute values and their modifiers change together. */
  datatype Change = Change(
    priceAdjustment: Option<int>,
    attributes: Option<(seq<nat>, seq<Modifier>)>,
    stock: Option<nat>,
    isActive: Option<bool>)

  datatype Op =
    | Add(input: NewVariant)
    | Update(id: nat, change: Change)
    | Delete(id: nat)
    | Reserve(id: nat, quantity: nat)
    | Restock(id: nat, quantity: nat)

  // ---------------------------------------------------------------------
  // Recomputing the index
  // ---------------------------------------------------------------------

  function ActiveOf(vs: seq<Variant>): seq<Variant> {
    if vs == [] then []
    else ActiveOf(vs[..|vs| - 1]) + (if vs[|vs| - 1].isActive then [vs[|vs| - 1]] else [])
  }

  predicate Priceable(p: Product, v: Variant) {
    AllAccepted(p.mode, VariantModifiers(v.pricing))
  }

  predicate AllPriceable(p: Product, vs: seq<Variant>) {
    forall i | 0 <= i < |vs| :: Priceable(p, vs[i])
  }

  function PriceOf(p: Product, rate: Option<real>, v: Variant): int
    requires Priceable(p, v)
  {
    VariantPrice(p, rate, v.pricing).value.finalPrice
  }

  function Lowest(p: Product, rate: Option<real>, vs: seq<Variant>): int
    requires vs != [] && AllPriceable(p, vs)
  {
    var n := |vs| - 1;
    var x := PriceOf(p, rate, vs[n]);
    if n == 0 then x else var m := Lowest(p, rate, vs[..n]); if x < m then x else m
  }

  function Highest(p: Product, rate: Option<real>, vs: seq<Variant>): int
    requires vs != [] && AllPriceable(p, vs)
  {
    var n := |vs| - 1;
    var x := PriceOf(p, rate, vs[n]);
    if n == 0 then x else var m := Highest(p, rate, vs[..n]); if x > m then x else m
  }

  /** None when pricing some active variant throws. */
  function Recompute(p: Product, rate: Option<real>, vs: seq<Variant>): Option<Index> {
    var active := ActiveOf(vs);
    if active == [] then Some(Index(0, 0, false, false))
    else if !AllPriceable(p, active) then None
    else Some(Index(
      Lowest(p, rate, active), Highest(p, rate, active),
      exists v <- active :: v.stock > 0,
      HasDiscount(p.discountKind, p.discountValue)))
  }

  // ---------------------------------------------------------------------
  // The operations
  // ---------------------------------------------------------------------

  predicate KeyTaken(vs: seq<Variant>, key: string, except: Option<nat>) {
    exists i | 0 <= i < |vs| :: vs[i].comboKey == key && except != Some(vs[i].id)
  }

  function Position(vs: seq<Variant>, id: nat): (i: nat)
    ensures i <= |vs|
    ensures i < |vs| ==> vs[i].id == id
    ensures forall j | 0 <= j < i :: vs[j].id != id
  {
    if vs == [] || vs[0].id == id then 0 else 1 + Position(vs[1..], id)
  }

  function Changed(v: Variant, c: Change): Variant {
    var adjustment := if c.priceAdjustment.Some? then c.priceAdjustment.value else v.pricing.priceAdjustment;
    var mods := if c.attributes.Some? then c.attributes.value.1 else v.pricing.attributes;
    var ids := if c.attributes.Some? then c.attributes.value.0 else v.valueIds;
    v.(pricing := VariantPricing(adjustment, mods),
       valueIds := ids,
       comboKey := if c.attributes.Some? then BuildComboKey(ids) else v.comboKey,
       stock := if c.stock.Some? then c.stock.value else v.stock,
       isActive := if c.isActive.Some? then c.isActive.value else v.isActive)
  }

  /** The rows as the operation leaves them, or the error that stops it first. */
  function Write(s: State, op: Op): Result<seq<Variant>> {
    match op
    case Add(input) =>
      var key := BuildComboKey(input.valueIds);
      if KeyTaken(s.variants, key, None) then Err(Conflict)
      else Ok(s.variants + [Variant(s.next, input.pricing, input.valueIds, key, input.stock, input.isActive)])
    case Update(id, change) =>
      var i := Position(s.variants, id);
      if i == |s.variants| then Err(NotFound)
      else if change.attributes.Some? && KeyTaken(s.variants, BuildComboKey(change.attributes.value.0), Some(id)) then
        Err(Conflict)
      else Ok(s.variants[i := Changed(s.variants[i], change)])
    case Delete(id) =>
      var i := Position(s.variants, id);
      if i == |s.variants| then Err(NotFound)
      else if |s.variants| <= 1 || id in s.ordered then Err(Conflict)
      else Ok(s.variants[..i] + s.variants[i + 1..])
    case Reserve(id, quantity) =>
      var i := Position(s.variants, id);
      if i == |s.variants| || s.variants[i].stock < quantity then Err(Conflict)
      else Ok(s.variants[i := s.variants[i].(stock := s.variants[i].stock - quantity)])
    case Restock(id, quantity) =>
      var i := Position(s.variants, id);
      if i == |s.variants| then Err(NotFound)
      else Ok(s.variants[i := s.variants[i].(stock := s.variants[i].stock + quantity)])
  }

  /** The rows are saved first; if the recomputation then throws, they stay saved. */
  function Apply(s: State, op: Op): State {
    match Write(s, op)
    case Err(_) => s
    case Ok(vs) =>
      var saved := s.(variants := vs,
                      ordered := if op.Reserve? then s.ordered + {op.id} else s.ordered,
                      next := if op.Add? then s.next + 1 else s.next);
      match Recompute(s.product, s.rate, vs)
      case None => saved
      case Some(index) => saved.(index := index)
  }

  function Run(s: State, ops: seq<Op>): State {
    if ops == [] then s else Apply(Run(s, ops[..|ops| - 1]), ops[|ops| - 1])
  }

  // ---------------------------------------------------------------------
  // What an operation writes
  // ---------------------------------------------------------------------

  /** Each field takes the value it was given, and keeps its own where none was. */
  lemma UpdateWritesItsFields(v: Variant, c: Change)
    ensures var w := Changed(v, c);
            && w.id == v.id
            && w.pricing.priceAdjustment == c.priceAdjustment.Or(v.pricing.priceAdjustment)
            && w.stock == c.stock.Or(v.stock)
            && w.isActive == c.isActive.Or(v.isActive)
            && (c.attributes.Some? ==>
                  && w.valueIds == c.attributes.value.0 && w.pricing.attributes == c.attributes.value.1
                  && w.comboKey == BuildComboKey(c.attributes.value.0))
            && (c.attributes.None? ==>
                  && w.valueIds == v.valueIds && w.pricing.attributes == v.pricing.attributes
                  && w.comboKey == v.comboKey)
  {
  }

  /** The row an operation is about; an add makes the next one. */
  function Target(s: State, op: Op): nat {
    if op.Add? then s.next else op.id
  }

  ghost predicate Has(vs: seq<Variant>, id: nat) {
    exists v <- vs :: v.id == id
  }

  /** No operation touches another row, adds a second one, or takes one away but a deletion its own. */
  lemma OthersUntouched(s: State, op: Op, v: Variant)
    requires v.id != Target(s, op)
    ensures v in Apply(s, op).variants <==> v in s.variants
  {
    if Write(s, op).Ok? {
      var vs, vs' := s.variants, Write(s, op).value;
      assert Apply(s, op).variants == vs';
      match op
      case Add(_) =>
      case Delete(id) => RemovalKeepsOthers(vs, Position(vs, id), v);
      case _ => SwapKeepsOthers(vs, Position(vs, op.id), vs'[Position(vs, op.id)], v);
    }
  }

  lemma SwapKeepsOthers(vs: seq<Variant>, i: nat, w: Variant, v: Variant)
    requires i < |vs| && vs[i].id == w.id && v.id != w.id
    ensures v in vs[i := w] <==> v in vs
  {
    var vs' := vs[i := w];
    if v in vs {
      var j :| 0 <= j < |vs| && vs[j] == v;
      assert vs'[j] == v;
    }
    if v in vs' {
      var j :| 0 <= j < |vs'| && vs'[j] == v;
      assert vs[j] == v;
    }
  }

  lemma RemovalKeepsOthers(vs: seq<Variant>, i: nat, v: Variant)
    requires i < |vs| && v.id != vs[i].id
    ensures v in vs[..i] + vs[i + 1..] <==> v in vs
  {
    assert vs == vs[..i] + [vs[i]] + vs[i + 1..];
  }

  /** When an operation is refused: what it is about is unknown or taken, in use, or out of stock. */
  lemma WriteRefusedIff(s: State, op: Op)
    ensures Write(s, op).Err? <==>
              match op
              case Add(input) => KeyTaken(s.variants, BuildComboKey(input.valueIds), None)
              case Update(id, change) =>
                || !Has(s.variants, id)
                || (change.attributes.Some? && KeyTaken(s.variants, BuildComboKey(change.attributes.value.0), Some(id)))
              case Delete(id) => !Has(s.variants, id) || |s.variants| == 1 || id in s.ordered
              case Reserve(id, quantity) =>
                var i := Position(s.variants, id);
                !Has(s.variants, id) || (i < |s.variants| && s.variants[i].stock < quantity)
              case Restock(id, _) => !Has(s.variants, id)
  {
    if !op.Add? {
      var i := Position(s.variants, op.id);
      if i < |s.variants| {
        assert s.variants[i] in s.variants;
      }
    }
  }

  /** What an operation that is not refused leaves of the row it is about. */
  ghost predicate RowIsWritten(s: State, op: Op, vs: seq<Variant>) {
    match op
    case Add(input) =>
      Variant(s.next, input.pricing, input.valueIds, BuildComboKey(input.valueIds), input.stock, input.isActive) in vs
    case Update(id, change) => HasRow(s, id) && Changed(RowOf(s, id), change) in vs
    case Delete(id) => !Has(vs, id)
    case Reserve(id, quantity) =>
      && HasRow(s, id) && quantity <= RowOf(s, id).stock
      && RowOf(s, id).(stock := RowOf(s, id).stock - quantity) in vs
    case Restock(id, quantity) =>
      HasRow(s, id) && RowOf(s, id).(stock := RowOf(s, id).stock + quantity) in vs
  }

  predicate HasRow(s: State, id: nat) {
    Position(s.variants, id) < |s.variants|
  }

  function RowOf(s: State, id: nat): Variant
    requires HasRow(s, id)
  {
    s.variants[Position(s.variants, id)]
  }

  lemma WritesItsRow(s: State, op: Op)
    requires Write(s, op).Ok? && Distinct(s.variants, s.next)
    ensures RowIsWritten(s, op, Apply(s, op).variants)
    ensures Apply(s, op).ordered == if op.Reserve? then s.ordered + {op.id} else s.ordered
  {
    WrittenIsSaved(s, op);
    match op
    case Add(input) => AddsItsRow(s, input);
    case Update(id, change) => UpdatesItsRow(s, id, change);
    case Delete(id) => RemovedIsGone(s.variants, s.next, Position(s.variants, id));
    case Reserve(id, quantity) => ReservesItsRow(s, id, quantity);
    case Restock(id, quantity) => RestocksItsRow(s, id, quantity);
  }

  lemma AddsItsRow(s: State, input: NewVariant)
    requires Write(s, Add(input)).Ok?
    ensures RowIsWritten(s, Add(input), Write(s, Add(input)).value)
  {
  }

  lemma UpdatesItsRow(s: State, id: nat, change: Change)
    requires Write(s, Update(id, change)).Ok?
    ensures RowIsWritten(s, Update(id, change), Write(s, Update(id, change)).value)
  {
    SwappedIn(s.variants, Position(s.variants, id), Changed(RowOf(s, id), change));
  }

  lemma ReservesItsRow(s: State, id: nat, quantity: nat)
    requires Write(s, Reserve(id, quantity)).Ok?
    ensures RowIsWritten(s, Reserve(id, quantity), Write(s, Reserve(id, quantity)).value)
  {
    SwappedIn(s.variants, Position(s.variants, id), RowOf(s, id).(stock := RowOf(s, id).stock - quantity));
  }

  lemma RestocksItsRow(s: State, id: nat, quantity: nat)
    requires Write(s, Restock(id, quantity)).Ok?
    ensures RowIsWritten(s, Restock(id, quantity), Write(s, Restock(id, quantity)).value)
  {
    SwappedIn(s.variants, Position(s.variants, id), RowOf(s, id).(stock := RowOf(s, id).stock + quantity));
  }

  lemma WrittenIsSaved(s: State, op: Op)
    requires Write(s, op).Ok?
    ensures Apply(s, op).variants == Write(s, op).value
    ensures Apply(s, op).ordered == if op.Reserve? then s.ordered + {op.id} else s.ordered
  {
  }

  lemma SwappedIn(vs: seq<Variant>, i: nat, v: Variant)
    requires i < |vs|
    ensures v in vs[i := v]
  {
    assert vs[i := v][i] == v;
  }

  lemma RemovedIsGone(vs: seq<Variant>, next: nat, i: nat)
    requires Distinct(vs, next) && i < |vs|
    ensures !Has(vs[..i] + vs[i + 1..], vs[i].id)
  {
    var rest := vs[..i] + vs[i + 1..];
    forall v | v in rest
      ensures v.id != vs[i].id
    {
      var j :| 0 <= j < |rest| && rest[j] == v;
      assert rest[j] == vs[Shift(i, j)];
    }
  }

  /** What was ever ordered can not be deleted: the row stays, whatever is done next. */
  lemma {:induction false} OrderedStays(s: State, ops: seq<Op>, id: nat)
    requires DistinctCombos(s) && id in s.ordered && Has(s.variants, id)
    ensures id in Run(s, ops).ordered && Has(Run(s, ops).variants, id)
  {
    if ops != [] {
      var n := |ops| - 1;
      var t := Run(s, ops[..n]);
      OrderedStays(s, ops[..n], id);
      RunKeepsCombos(s, ops[..n]);
      OrderedStaysStep(t, ops[n], id);
    }
  }

  lemma OrderedStaysStep(s: State, op: Op, id: nat)
    requires DistinctCombos(s) && id in s.ordered && Has(s.variants, id)
    ensures id in Apply(s, op).ordered && Has(Apply(s, op).variants, id)
  {
    var v :| v in s.variants && v.id == id;
    if Target(s, op) != id {
      OthersUntouched(s, op, v);
    } else if Write(s, op).Ok? {
      WriteRefusedIff(s, op);
      WritesItsRow(s, op);
    }
  }

  // ---------------------------------------------------------------------
  // What the stored figures mean
  // ---------------------------------------------------------------------

  /** The prices on the product are the attained extremes of the active variants' prices. */
  ghost predicate Fresh(s: State) {
    if forall v <- s.variants :: !v.isActive then s.index == Index(0, 0, false, false)
    else
      && (forall v <- s.variants | v.isActive :: Priceable(s.product, v))
      && (forall v <- s.variants | v.isActive ::
            s.index.minPrice <= PriceOf(s.product, s.rate, v) <= s.index.maxPrice)
      && (exists v <- s.variants | v.isActive :: PriceOf(s.product, s.rate, v) == s.index.minPrice)
      && (exists v <- s.variants | v.isActive :: PriceOf(s.product, s.rate, v) == s.index.maxPrice)
      && (s.index.isInStock <==> exists v <- s.variants | v.isActive :: v.stock > 0)
      && s.index.hasDiscount == HasDiscount(s.product.discountKind, s.product.discountValue)
  }

  lemma {:induction false} ActiveMembers(vs: seq<Variant>)
    ensures forall v :: v in ActiveOf(vs) <==> v in vs && v.isActive
  {
    if vs != [] {
      ActiveMembers(vs[..|vs| - 1]);
      assert vs == vs[..|vs| - 1] + [vs[|vs| - 1]];
    }
  }

  lemma {:induction false} ExtremesAttained(p: Product, rate: Option<real>, vs: seq<Variant>)
    requires vs != [] && AllPriceable(p, vs)
    ensures forall v <- vs :: Priceable(p, v) && Lowest(p, rate, vs) <= PriceOf(p, rate, v) <= Highest(p, rate, vs)
    ensures exists v <- vs :: Priceable(p, v) && PriceOf(p, rate, v) == Lowest(p, rate, vs)
    ensures exists v <- vs :: Priceable(p, v) && PriceOf(p, rate, v) == Highest(p, rate, vs)
  {
    var n := |vs| - 1;
    assert vs == vs[..n] + [vs[n]] && vs[n] in vs;
    if n > 0 {
      ExtremesAttained(p, rate, vs[..n]);
    }
  }

  /** One more variant: the extremes of the first `i + 1` from those of the first `i`. */
  lemma ExtremesStep(p: Product, rate: Option<real>, vs: seq<Variant>, i: nat)
    requires i < |vs| && AllPriceable(p, vs[..i]) && Priceable(p, vs[i])
    ensures AllPriceable(p, vs[..i + 1])
    ensures var x := PriceOf(p, rate, vs[i]);
            && Lowest(p, rate, vs[..i + 1]) == (if i == 0 || x < Lowest(p, rate, vs[..i]) then x
               else Lowest(p, rate, vs[..i]))
            && Highest(p, rate, vs[..i + 1]) == (if i == 0 || x > Highest(p, rate, vs[..i]) then x
               else Highest(p, rate, vs[..i]))
  {
    assert vs[..i + 1][..i] == vs[..i];
    var ws := vs[..i + 1];
    forall j | 0 <= j < |ws| ensures Priceable(p, ws[j]) {
      assert j < i ==> vs[..i][j] == ws[j];
    }
  }

  lemma RecomputedIsFresh(s: State)
    requires Recompute(s.product, s.rate, s.variants) == Some(s.index)
    ensures Fresh(s)
  {
    var active := ActiveOf(s.variants);
    ActiveMembers(s.variants);
    if active != [] {
      assert active[0] in active;
      ExtremesAttained(s.product, s.rate, active);
    } else {
      forall v | v in s.variants ensures !v.isActive { assert v !in active; }
    }
  }

  ghost predicate ActivePriceable(s: State) {
    forall v <- s.variants | v.isActive :: Priceable(s.product, v)
  }

  lemma RecomputeSucceedsIff(s: State)
    ensures Recompute(s.product, s.rate, s.variants).Some? <==> ActivePriceable(s)
  {
    var active := ActiveOf(s.variants);
    ActiveMembers(s.variants);
    forall i | 0 <= i < |active| ensures active[i] in active {}
  }

  /**
   After any operation on a product whose figures were right, they are right again
   exactly when every active variant can be priced.
   */
  lemma ApplyFreshIff(s: State, op: Op)
    requires Fresh(s)
    ensures Fresh(Apply(s, op)) <==> ActivePriceable(Apply(s, op))
  {
    var s' := Apply(s, op);
    if Write(s, op).Ok? {
      RecomputeSucceedsIff(s');
      if ActivePriceable(s') {
        RecomputedIsFresh(s');
      }
    }
  }

  /** The changed row would be active with a modifier the engine refuses. */
  predicate ChangeIsRejected(p: Product, v: Variant, c: Change) {
    && (if c.isActive.Some? then c.isActive.value else v.isActive)
    && !AllAccepted(p.mode, if c.attributes.Some? then c.attributes.value.1 else v.pricing.attributes)
  }

  /**
   Checkable before the call: an add is refused, inactive or priced by accepted
   modifiers, an update is refused or leaves no active row with a rejected modifier,
   and everything else is harmless.
   */
  predicate KeepsFigures(s: State, op: Op) {
    match op
    case Add(input) =>
      || KeyTaken(s.variants, BuildComboKey(input.valueIds), None)
      || !input.isActive
      || AllAccepted(s.product.mode, input.pricing.attributes)
    case Update(id, change) =>
      var i := Position(s.variants, id);
      || i == |s.variants|
      || (change.attributes.Some? && KeyTaken(s.variants, BuildComboKey(change.attributes.value.0), Some(id)))
      || !ChangeIsRejected(s.product, s.variants[i], change)
    case _ => true
  }

  lemma PriceableIff(p: Product, v: Variant)
    ensures Priceable(p, v) <==> AllAccepted(p.mode, v.pricing.attributes)
  {
    var mods := VariantModifiers(v.pricing);
    forall i | 0 <= i < |v.pricing.attributes|
      ensures mods[i] == v.pricing.attributes[i]
    {
    }
  }

  predicate FineIfActive(p: Product, v: Variant) { v.isActive ==> Priceable(p, v) }

  /** The active rows of `vs` can be priced, whatever the figures say. */
  ghost predicate AllActive(p: Product, vs: seq<Variant>) {
    All(vs, v => FineIfActive(p, v))
  }

  lemma FreshMeansPriceable(s: State)
    requires Fresh(s)
    ensures AllActive(s.product, s.variants)
  {
  }

  lemma PriceableAfterSwap(p: Product, vs: seq<Variant>, i: nat, v: Variant)
    requires AllActive(p, vs) && i < |vs|
    ensures AllActive(p, vs[i := v]) <==> !v.isActive || AllAccepted(p.mode, v.pricing.attributes)
  {
    PriceableIff(p, v);
    if FineIfActive(p, v) {
      SwapKeepsAll(vs, i, v, w => FineIfActive(p, w));
    }
    assert vs[i := v][i] == v && v in vs[i := v];
  }

  lemma PriceableAfterWriteIff(s: State, op: Op)
    requires AllActive(s.product, s.variants) && Write(s, op).Ok?
    ensures AllActive(s.product, Write(s, op).value) <==> KeepsFigures(s, op)
  {
    var p, vs := s.product, s.variants;
    match op
    case Add(input) =>
      var v := Write(s, op).value[|vs|];
      PriceableIff(p, v);
      assert v in Write(s, op).value;
    case Update(id, change) =>
      var i := Position(vs, id);
      PriceableAfterSwap(p, vs, i, Changed(vs[i], change));
    case Delete(id) => RemoveKeepsAll(vs, Position(vs, id), v => FineIfActive(p, v));
    case Reserve(id, quantity) => StockKeepsPriceable(p, vs, Position(vs, id), vs[Position(vs, id)].stock - quantity);
    case Restock(id, quantity) => StockKeepsPriceable(p, vs, Position(vs, id), vs[Position(vs, id)].stock + quantity);
  }

  lemma StockKeepsPriceable(p: Product, vs: seq<Variant>, i: nat, stock: nat)
    requires AllActive(p, vs) && i < |vs|
    ensures AllActive(p, vs[i := vs[i].(stock := stock)])
  {
    assert vs[i] in vs;
    PriceableIff(p, vs[i]);
    PriceableAfterSwap(p, vs, i, vs[i].(stock := stock));
  }

  /** Exactly, from the call alone: right figures stay right if and only if the operation keeps them. */
  lemma StaysFreshIff(s: State, op: Op)
    requires Fresh(s)
    ensures Fresh(Apply(s, op)) <==> KeepsFigures(s, op)
  {
    FreshMeansPriceable(s);
    if Write(s, op).Ok? {
      ApplyFreshIff(s, op);
      PriceableAfterWriteIff(s, op);
      ActiveIsAllActive(Apply(s, op));
    }
  }

  lemma ActiveIsAllActive(s: State)
    ensures ActivePriceable(s) <==> AllActive(s.product, s.variants)
  {
  }

  ghost predicate FreshAt(s: State, ops: seq<Op>, i: nat)
    requires i <= |ops|
  {
    Fresh(Run(s, ops[..i]))
  }

  predicate KeptAt(s: State, ops: seq<Op>, i: nat)
    requires i < |ops|
  {
    KeepsFigures(Run(s, ops[..i]), ops[i])
  }

  lemma FreshNextIff(s: State, ops: seq<Op>, i: nat)
    requires i < |ops| && FreshAt(s, ops, i)
    ensures FreshAt(s, ops, i + 1) <==> KeptAt(s, ops, i)
  {
    assert ops[..i + 1][..i] == ops[..i];
    StaysFreshIff(Run(s, ops[..i]), ops[i]);
  }

  /** And over whole runs: the figures are right all along if and only if every operation keeps them where it comes. */
  lemma {:induction false} RunStaysFreshIff(s: State, ops: seq<Op>)
    requires Fresh(s)
    ensures (forall i | 0 <= i <= |ops| :: FreshAt(s, ops, i)) <==> forall i | 0 <= i < |ops| :: KeptAt(s, ops, i)
  {
    var n := |ops|;
    var holds := (i: nat) => i <= n && FreshAt(s, ops, i);
    var keeps := (i: nat) => i < n && KeptAt(s, ops, i);
    forall i: nat | i < n && holds(i)
      ensures holds(i + 1) <==> keeps(i)
    {
      FreshNextIff(s, ops, i);
    }
    assert ops[..0] == [] && holds(0);
    AllAlongIff(holds, keeps, n);
    assert forall i | 0 <= i <= n :: FreshAt(s, ops, i) <==> holds(i);
    assert forall i | 0 <= i < n :: KeptAt(s, ops, i) <==> keeps(i);
  }

  ghost predicate All(vs: seq<Variant>, ok: Variant -> bool) {
    forall v <- vs :: ok(v)
  }

  /** A property that `op` respects on the one variant it touches holds of all variants afterwards. */
  lemma WriteKeepsAll(s: State, op: Op, ok: Variant -> bool)
    requires All(s.variants, ok) && Write(s, op).Ok?
    requires op.Add? ==> ok(Write(s, op).value[|s.variants|])
    requires op.Update? ==> forall v | ok(v) :: ok(Changed(v, op.change))
    requires op.Reserve? || op.Restock? ==> forall v, n: nat | ok(v) :: ok(v.(stock := n))
    ensures All(Write(s, op).value, ok)
  {
    match op
    case Add(input) =>
    case Update(id, change) =>
      var i := Position(s.variants, id);
      SwapKeepsAll(s.variants, i, Changed(s.variants[i], change), ok);
    case Delete(id) => RemoveKeepsAll(s.variants, Position(s.variants, id), ok);
    case Reserve(id, quantity) =>
      var i := Position(s.variants, id);
      SwapKeepsAll(s.variants, i, s.variants[i].(stock := s.variants[i].stock - quantity), ok);
    case Restock(id, quantity) =>
      var i := Position(s.variants, id);
      SwapKeepsAll(s.variants, i, s.variants[i].(stock := s.variants[i].stock + quantity), ok);
  }

  lemma RemoveKeepsAll(vs: seq<Variant>, i: nat, ok: Variant -> bool)
    requires All(vs, ok) && i < |vs|
    ensures All(vs[..i] + vs[i + 1..], ok)
  {
    assert forall w <- vs[..i] + vs[i + 1..] :: w in vs;
  }

  lemma SwapKeepsAll(vs: seq<Variant>, i: nat, v: Variant, ok: Variant -> bool)
    requires All(vs, ok) && i < |vs| && (ok(vs[i]) ==> ok(v))
    ensures All(vs[i := v], ok)
  {
    assert vs[i] in vs;
    assert forall w <- vs[i := v] :: w == v || w in vs;
  }

  /** The guard a caller can check: on a fixed-price product no source-currency modifier. */
  predicate AcceptedOp(p: Product, op: Op) {
    match op
    case Add(input) => AllAccepted(p.mode, input.pricing.attributes)
    case Update(_, change) => change.attributes.Some? ==> AllAccepted(p.mode, change.attributes.value.1)
    case _ => true
  }

  predicate Clean(p: Product, v: Variant) {
    AllAccepted(p.mode, v.pricing.attributes)
  }

  lemma CleanIsPriceable(p: Product, v: Variant)
    requires Clean(p, v)
    ensures Priceable(p, v)
  {
  }

  ghost predicate AllClean(s: State) {
    All(s.variants, v => Clean(s.product, v))
  }

  lemma ApplyKeepsClean(s: State, op: Op)
    requires AllClean(s) && AcceptedOp(s.product, op)
    ensures AllClean(Apply(s, op))
  {
    if Write(s, op).Ok? {
      var p := s.product;
      WriteKeepsAll(s, op, v => Clean(p, v));
    }
  }

  /**
   After any sequence of adding, changing and deleting variants, of orders and of
   cancellations, the stored figures are those of the variants.
   */
  lemma {:induction false} RunKeepsFresh(s: State, ops: seq<Op>)
    requires Fresh(s) && AllClean(s) && forall i | 0 <= i < |ops| :: AcceptedOp(s.product, ops[i])
    ensures Fresh(Run(s, ops)) && AllClean(Run(s, ops)) && Run(s, ops).product == s.product
  {
    if ops != [] {
      var n := |ops| - 1;
      var t := Run(s, ops[..n]);
      RunKeepsFresh(s, ops[..n]);
      ApplyKeepsClean(t, ops[n]);
      var t' := Apply(t, ops[n]);
      forall v | v in t'.variants
        ensures Priceable(t'.product, v)
      {
        CleanIsPriceable(t'.product, v);
      }
      ApplyFreshIff(t, ops[n]);
    }
  }

  /**
   Without the guard the promise fails: the add answers with an error, yet the
   variant is saved and the figures no longer describe the product.
   */
  lemma RejectedModifierStaysSaved(s: State, input: NewVariant)
    requires Fresh(s) && input.isActive && !AllAccepted(s.product.mode, input.pricing.attributes)
    requires !KeyTaken(s.variants, BuildComboKey(input.valueIds), None)
    ensures var s' := Apply(s, Add(input));
            |s'.variants| == |s.variants| + 1 && s'.index == s.index && !Fresh(s')
  {
    var s' := Apply(s, Add(input));
    var v := s'.variants[|s.variants|];
    var i :| 0 <= i < |input.pricing.attributes| && !Accepts(s.product.mode, input.pricing.attributes[i]);
    assert VariantModifiers(v.pricing)[i] == input.pricing.attributes[i];
    assert !Priceable(s.product, v) && v in s'.variants;
    RecomputeSucceedsIff(s');
    ApplyFreshIff(s, Add(input));
  }

  // ---------------------------------------------------------------------
  // Combinations stay distinct
  // ---------------------------------------------------------------------

  /** Ids and combination keys are all different. */
  ghost predicate Distinct(vs: seq<Variant>, next: nat) {
    && (forall i | 0 <= i < |vs| :: vs[i].id < next)
    && (forall i, j | 0 <= i < j < |vs| :: vs[i].id != vs[j].id && vs[i].comboKey != vs[j].comboKey)
  }

  ghost predicate KeyRight(v: Variant) {
    v.comboKey == BuildComboKey(v.valueIds)
  }

  ghost predicate KeysRight(vs: seq<Variant>) {
    All(vs, v => KeyRight(v))
  }

  lemma KeyAt(vs: seq<Variant>, i: nat)
    requires KeysRight(vs) && i < |vs|
    ensures vs[i].comboKey == BuildComboKey(vs[i].valueIds)
  {
    assert vs[i] in vs;
    assert KeyRight(vs[i]);
  }

  ghost predicate DistinctCombos(s: State) {
    KeysRight(s.variants) && Distinct(s.variants, s.next)
  }

  /** No two variants of a product carry the same attribute values. */
  lemma CombosAreDistinct(s: State, i: nat, j: nat)
    requires DistinctCombos(s) && i < j < |s.variants|
    ensures multiset(s.variants[i].valueIds) != multiset(s.variants[j].valueIds)
  {
    KeyAt(s.variants, i);
    KeyAt(s.variants, j);
    KeyIffSameValues(s.variants[i].valueIds, s.variants[j].valueIds);
  }

  lemma ApplyKeepsCombos(s: State, op: Op)
    requires DistinctCombos(s)
    ensures DistinctCombos(Apply(s, op))
  {
    if Write(s, op).Ok? {
      WriteKeepsDistinct(s, op);
      WriteKeepsAll(s, op, v => KeyRight(v));
    }
  }

  lemma WriteKeepsDistinct(s: State, op: Op)
    requires Distinct(s.variants, s.next) && Write(s, op).Ok?
    ensures Distinct(Write(s, op).value, if op.Add? then s.next + 1 else s.next)
  {
    match op
    case Add(input) => AddKeepsDistinct(s, input);
    case Update(id, change) => UpdateKeepsDistinct(s, id, change);
    case Delete(id) => RemoveKeepsDistinct(s.variants, s.next, Position(s.variants, id));
    case Reserve(id, quantity) =>
      var i := Position(s.variants, id);
      SwapKeepsDistinct(s.variants, s.next, i, s.variants[i].(stock := s.variants[i].stock - quantity));
    case Restock(id, quantity) =>
      var i := Position(s.variants, id);
      SwapKeepsDistinct(s.variants, s.next, i, s.variants[i].(stock := s.variants[i].stock + quantity));
  }

  lemma AddKeepsDistinct(s: State, input: NewVariant)
    requires Distinct(s.variants, s.next) && Write(s, Add(input)).Ok?
    ensures Distinct(Write(s, Add(input)).value, s.next + 1)
  {
    var vs, vs' := s.variants, Write(s, Add(input)).value;
    var n := |vs|;
    assert vs' == vs + [vs'[n]] && vs'[n].id == s.next;
    forall i | 0 <= i < n
      ensures vs[i].id != vs'[n].id && vs[i].comboKey != vs'[n].comboKey
    {
    }
  }

  lemma SwapKeepsDistinct(vs: seq<Variant>, next: nat, i: nat, v: Variant)
    requires Distinct(vs, next) && i < |vs| && v.id == vs[i].id
    requires forall j | 0 <= j < |vs| && j != i :: vs[j].comboKey != v.comboKey
    ensures Distinct(vs[i := v], next)
  {
  }

  lemma UpdateKeepsDistinct(s: State, id: nat, change: Change)
    requires Distinct(s.variants, s.next) && Write(s, Update(id, change)).Ok?
    ensures Distinct(Write(s, Update(id, change)).value, s.next)
  {
    var vs := s.variants;
    var i := Position(vs, id);
    var v := Changed(vs[i], change);
    forall j | 0 <= j < |vs| && j != i
      ensures vs[j].comboKey != v.comboKey
    {
      assert vs[j].id != vs[i].id;
    }
    SwapKeepsDistinct(vs, s.next, i, v);
  }

  lemma RemoveKeepsDistinct(vs: seq<Variant>, next: nat, i: nat)
    requires Distinct(vs, next) && i < |vs|
    ensures Distinct(vs[..i] + vs[i + 1..], next)
  {
    var rest := vs[..i] + vs[i + 1..];
    forall j, k | 0 <= j < k < |rest|
      ensures rest[j].id != rest[k].id && rest[j].comboKey != rest[k].comboKey
    {
      assert rest[j] == vs[Shift(i, j)] && rest[k] == vs[Shift(i, k)];
    }
  }

  function Shift(i: nat, j: nat): nat {
    if j < i then j else j + 1
  }

  lemma {:induction false} RunKeepsCombos(s: State, ops: seq<Op>)
    requires DistinctCombos(s)
    ensures DistinctCombos(Run(s, ops))
  {
    if ops != [] {
      RunKeepsCombos(s, ops[..|ops| - 1]);
      ApplyKeepsCombos(Run(s, ops[..|ops| - 1]), ops[|ops| - 1]);
    }
  }

  /** A new variant is refused exactly when a sibling already has its values, in any order. */
  lemma AddRefusedIffSameValues(s: State, input: NewVariant)
    requires DistinctCombos(s)
    ensures Write(s, Add(input)).Err?
       <==> exists i | 0 <= i < |s.variants| :: multiset(s.variants[i].valueIds) == multiset(input.valueIds)
  {
    forall i | 0 <= i < |s.variants|
      ensures s.variants[i].comboKey == BuildComboKey(input.valueIds)
         <==> multiset(s.variants[i].valueIds) == multiset(input.valueIds)
    {
      KeyAt(s.variants, i);
      KeyIffSameValues(s.variants[i].valueIds, input.valueIds);
    }
  }

  /** An update is refused exactly when its row is unknown or another row has the new values, in any order. */
  lemma UpdateRefusedIffSameValues(s: State, id: nat, change: Change)
    requires DistinctCombos(s)
    ensures Write(s, Update(id, change)).Err?
       <==> (forall i | 0 <= i < |s.variants| :: s.variants[i].id != id)
            || (change.attributes.Some?
                && exists i | 0 <= i < |s.variants| ::
                     s.variants[i].id != id && multiset(s.variants[i].valueIds) == multiset(change.attributes.value.0))
  {
    if change.attributes.Some? {
      var ids := change.attributes.value.0;
      forall i | 0 <= i < |s.variants|
        ensures s.variants[i].comboKey == BuildComboKey(ids) <==> multiset(s.variants[i].valueIds) == multiset(ids)
      {
        KeyAt(s.variants, i);
        KeyIffSameValues(s.variants[i].valueIds, ids);
      }
    }
  }

  // ---------------------------------------------------------------------
  // The product row, updated in place
  // ---------------------------------------------------------------------

  class ProductRow {
    const product: Product
    const rate: Option<real>
    var variants: seq<Variant>
    var index: Index
    var ordered: set<nat>
    var next: nat

    ghost function View(): State
      reads this
    {
      State(product, rate, variants, index, ordered, next)
    }

    constructor (product: Product, rate: Option<real>)
      ensures this.product == product && this.rate == rate && variants == [] && Fresh(View()) && DistinctCombos(View())
    {
      this.product, this.rate := product, rate;
      variants, index, ordered, next := [], Index(0, 0, false, false), {}, 1;
    }

    /** Recomputes and stores the figures; `ok` is false when pricing throws and nothing is stored. */
    method RecomputeAggregates() returns (ok: bool)
      modifies `index
      ensures ok <==> Recompute(product, rate, variants).Some?
      ensures index == if ok then Recompute(product, rate, variants).value else old(index)
    {
      var active := ActiveOf(variants);
      if active == [] {
        index := Index(0, 0, false, false);
        return true;
      }
      var low, high := 0, 0;
      for i := 0 to |active|
        invariant index == old(index)
        invariant AllPriceable(product, active[..i])
        invariant i > 0 ==> low == Lowest(product, rate, active[..i]) && high == Highest(product, rate, active[..i])
      {
        var breakdown := CalculateFinalPrice(product, rate, VariantModifiers(active[i].pricing));
        if breakdown.Err? {
          assert !Priceable(product, active[i]);
          return false;
        }
        var price := breakdown.value.finalPrice;
        ExtremesStep(product, rate, active, i);
        low := if i == 0 || price < low then price else low;
        high := if i == 0 || price > high then price else high;
      }
      assert active[..|active|] == active;
      index := Index(
        low, high, exists v <- active :: v.stock > 0, HasDiscount(product.discountKind, product.discountValue));
      ok := true;
    }

    method AddVariant(input: NewVariant) returns (r: Result<nat>)
      modifies this
      ensures View() == Apply(old(View()), Add(input))
      ensures r.Ok? <==> Write(old(View()), Add(input)).Ok? && Recompute(product, rate, variants).Some?
    {
      var key := BuildComboKey(input.valueIds);
      if KeyTaken(variants, key, None) {
        return Err(Conflict);
      }
      var id := next;
      variants := variants + [Variant(id, input.pricing, input.valueIds, key, input.stock, input.isActive)];
      next := next + 1;
      var ok := RecomputeAggregates();
      r := if ok then Ok(id) else Err(BadRequest);
    }

    method UpdateVariant(id: nat, change: Change) returns (r: Result<nat>)
      modifies this
      ensures View() == Apply(old(View()), Update(id, change))
      ensures r.Ok? <==> Write(old(View()), Update(id, change)).Ok? && Recompute(product, rate, variants).Some?
    {
      var i := Position(variants, id);
      if i == |variants| {
        return Err(NotFound);
      }
      if change.attributes.Some? && KeyTaken(variants, BuildComboKey(change.attributes.value.0), Some(id)) {
        return Err(Conflict);
      }
      variants := variants[i := Changed(variants[i], change)];
      var ok := RecomputeAggregates();
      r := if ok then Ok(id) else Err(BadRequest);
    }

    method DeleteVariant(id: nat) returns (r: Result<nat>)
      modifies this
      ensures View() == Apply(old(View()), Delete(id))
      ensures r.Ok? <==> Write(old(View()), Delete(id)).Ok? && Recompute(product, rate, variants).Some?
    {
      var i := Position(variants, id);
      if i == |variants| {
        return Err(NotFound);
      }
      if |variants| <= 1 || id in ordered {
        return Err(Conflict);
      }
      variants := variants[..i] + variants[i + 1..];
      assert Write(old(View()), Delete(id)) == Ok(variants);
      var ok := RecomputeAggregates();
      r := if ok then Ok(id) else Err(BadRequest);
    }
  }
}
