/**
 The canonical key of a variant: its attribute value ids, sorted and joined with
 commas. Two variants get the same key exactly when they carry the same ids,
 counted with repetition and in any order.
 */
module ComboKey {
  function Digit(n: nat): char
    requires n < 10
  {
    "0123456789"[n]
  }

  function Decimal(n: nat): (s: string)
    ensures s != "" && ',' !in s
    ensures n >= 10 ==> |s| >= 2
  {
    if n < 10 then [Digit(n)] else Decimal(n / 10) + [Digit(n % 10)]
  }

  function Insert(x: nat, s: seq<nat>): (r: seq<nat>)
    ensures multiset(r) == multiset(s) + multiset{x}
  {
    if s == [] || x <= s[0] then [x] + s
    else
      assert s == [s[0]] + s[1..];
      [s[0]] + Insert(x, s[1..])
  }

  function Sort(s: seq<nat>): (r: seq<nat>)
    ensures multiset(r) == multiset(s)
  {
    if s == [] then []
    else
      assert s == [s[0]] + s[1..];
      Insert(s[0], Sort(s[1..]))
  }

  function Join(ids: seq<nat>): string {
    if ids == [] then ""
    else if |ids| == 1 then Decimal(ids[0])
    else Decimal(ids[0]) + "," + Join(ids[1..])
  }

  function BuildComboKey(ids: seq<nat>): string {
    Join(Sort(ids))
  }

  // ---------------------------------------------------------------------
  // Sorting is canonical
  // ---------------------------------------------------------------------

  ghost predicate Sorted(s: seq<nat>) {
    forall i, j | 0 <= i < j < |s| :: s[i] <= s[j]
  }

  lemma {:induction false} InsertSorted(x: nat, s: seq<nat>)
    requires Sorted(s)
    ensures Sorted(Insert(x, s))
  {
    if s != [] && x > s[0] {
      InsertSorted(x, s[1..]);
      InsertedAtLeast(x, s[1..], s[0]);
      SortedCons(s[0], Insert(x, s[1..]));
    }
  }

  lemma InsertedAtLeast(x: nat, s: seq<nat>, low: nat)
    requires low <= x && forall y <- s :: low <= y
    ensures forall y <- Insert(x, s) :: low <= y
  {
    forall y | y in Insert(x, s)
      ensures low <= y
    {
      assert y in multiset(Insert(x, s));
      assert y == x || y in multiset(s);
      assert y == x || y in s;
    }
  }

  lemma SortedCons(x: nat, s: seq<nat>)
    requires Sorted(s) && forall y <- s :: x <= y
    ensures Sorted([x] + s)
  {
    forall i, j | 0 <= i < j < |[x] + s|
      ensures ([x] + s)[i] <= ([x] + s)[j]
    {
      assert ([x] + s)[j] == s[j - 1] && s[j - 1] in s;
      assert i > 0 ==> ([x] + s)[i] == s[i - 1];
    }
  }

  lemma {:induction false} SortSorted(s: seq<nat>)
    ensures Sorted(Sort(s))
  {
    if s != [] {
      SortSorted(s[1..]);
      InsertSorted(s[0], Sort(s[1..]));
    }
  }

  lemma {:induction false} SortedIsCanonical(s: seq<nat>, t: seq<nat>)
    requires Sorted(s) && Sorted(t) && multiset(s) == multiset(t)
    ensures s == t
  {
    assert |s| == |multiset(s)| == |multiset(t)| == |t|;
    if s != [] {
      SameHead(s, t);
      HeadRemoved(s);
      HeadRemoved(t);
      SortedIsCanonical(s[1..], t[1..]);
      assert s == [s[0]] + s[1..] && t == [t[0]] + t[1..];
    }
  }

  lemma SameHead(s: seq<nat>, t: seq<nat>)
    requires Sorted(s) && Sorted(t) && multiset(s) == multiset(t) && s != [] && t != []
    ensures s[0] == t[0]
  {
    assert s[0] in multiset(t) && t[0] in multiset(s);
  }

  lemma HeadRemoved(s: seq<nat>)
    requires s != []
    ensures multiset(s[1..]) == multiset(s) - multiset{s[0]}
  {
    assert s == [s[0]] + s[1..];
  }

  // ---------------------------------------------------------------------
  // Joining is injective
  // ---------------------------------------------------------------------

  /** What a string of decimal digits stands for. */
  function Value(s: string): int {
    if s == "" then 0 else 10 * Value(s[..|s| - 1]) + (s[|s| - 1] as int - '0' as int)
  }

  /** Ids are written in decimal. */
  lemma {:induction false} DecimalReadsBack(n: nat)
    ensures Value(Decimal(n)) == n && forall c <- Decimal(n) :: '0' <= c <= '9'
  {
    var last := Digit(n % 10);
    assert last as int - '0' as int == n % 10;
    if n >= 10 {
      DecimalReadsBack(n / 10);
      assert Decimal(n)[..|Decimal(n)| - 1] == Decimal(n / 10);
    } else {
      assert Decimal(n)[..0] == "";
    }
  }

  lemma SortTwo(a: nat, b: nat)
    requires a <= b
    ensures Sort([a, b]) == [a, b] && Sort([b, a]) == [a, b]
  {
    assert [a, b][1..] == [b] && [b, a][1..] == [a] && [a][1..] == [] && [b][1..] == [];
    assert Sort([a]) == Insert(a, []) == [a] && Sort([b]) == Insert(b, []) == [b];
    assert Insert(a, [b]) == [a, b];
    assert Insert(b, [a]) == [a, b];
  }

  /** In ascending order, with a comma between them. */
  lemma KeyOfTwo(a: nat, b: nat)
    requires a <= b
    ensures BuildComboKey([a, b]) == BuildComboKey([b, a]) == Decimal(a) + "," + Decimal(b)
  {
    SortTwo(a, b);
    var ids := [a, b];
    assert |ids| == 2 && ids[1..] == [b] && Join([b]) == Decimal(b);
    assert Join(ids) == Decimal(ids[0]) + "," + Join(ids[1..]);
  }

  lemma {:induction false} DecimalInjective(m: nat, n: nat)
    requires Decimal(m) == Decimal(n)
    ensures m == n
  {
    if m >= 10 && n >= 10 {
      var dm, dn := Decimal(m), Decimal(n);
      assert dm[..|dm| - 1] == Decimal(m / 10) && dn[..|dn| - 1] == Decimal(n / 10);
      assert dm[|dm| - 1] == Digit(m % 10) && dn[|dn| - 1] == Digit(n % 10);
      DecimalInjective(m / 10, n / 10);
    }
  }

  lemma SplitAtFirstComma(x: string, u: string, y: string, v: string)
    requires ',' !in x && ',' !in y && x + "," + u == y + "," + v
    ensures x == y && u == v
  {
    var s, t := x + "," + u, y + "," + v;
    assert s[|x|] == ',' && t[|y|] == ',';
    assert forall i | 0 <= i < |x| :: s[i] == x[i];
    assert forall i | 0 <= i < |y| :: t[i] == y[i];
    assert |x| == |y|;
    assert s[..|x|] == x && t[..|y|] == y;
    assert s[|x| + 1..] == u && t[|y| + 1..] == v;
  }

  lemma CommaIffSeveral(ids: seq<nat>)
    ensures ',' in Join(ids) <==> |ids| >= 2
    ensures Join(ids) == "" <==> ids == []
  {
    if |ids| >= 2 {
      assert Join(ids)[|Decimal(ids[0])|] == ',';
    }
  }

  lemma {:induction false} JoinInjective(a: seq<nat>, b: seq<nat>)
    requires Join(a) == Join(b)
    ensures a == b
  {
    CommaIffSeveral(a);
    CommaIffSeveral(b);
    if |a| >= 2 {
      SplitAtFirstComma(Decimal(a[0]), Join(a[1..]), Decimal(b[0]), Join(b[1..]));
      DecimalInjective(a[0], b[0]);
      JoinInjective(a[1..], b[1..]);
      assert a == [a[0]] + a[1..] && b == [b[0]] + b[1..];
    } else if |a| == 1 {
      DecimalInjective(a[0], b[0]);
    }
  }

  lemma KeyIffSameValues(a: seq<nat>, b: seq<nat>)
    ensures BuildComboKey(a) == BuildComboKey(b) <==> multiset(a) == multiset(b)
  {
    SortSorted(a);
    SortSorted(b);
    if BuildComboKey(a) == BuildComboKey(b) {
      JoinInjective(Sort(a), Sort(b));
    }
    if multiset(a) == multiset(b) {
      SortedIsCanonical(Sort(a), Sort(b));
    }
  }
}
