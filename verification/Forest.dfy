/**
 Parent links. A table gives every id its parent, if it has one; the rows of a
 query are a list of such entries, each id at most once. A forest is a table with
 no dangling parent and no cycle.
 */
module Forest {
  import opened Options

  type Table = map<nat, Option<nat>>

  datatype Row = Row(id: nat, parent: Option<nat>)

  ghost predicate Closed(t: Table) {
    forall x | x in t && t[x].Some? :: t[x].value in t
  }

  /** Every step to a parent goes down in rank. */
  ghost predicate RankedBy(t: Table, rank: map<nat, nat>) {
    && (forall x | x in t :: x in rank)
    && (forall x | x in t && t[x].Some? && t[x].value in t :: rank[t[x].value] < rank[x])
  }

  ghost predicate IsForest(t: Table) {
    Closed(t) && exists rank :: RankedBy(t, rank)
  }

  /** The ancestor `k` steps above `x`. */
  function Ancestor(t: Table, x: nat, k: nat): Option<nat>
    decreases k
  {
    if k == 0 then Some(x)
    else if x in t && t[x].Some? then Ancestor(t, t[x].value, k - 1)
    else None
  }

  ghost predicate Below(t: Table, x: nat, a: nat) {
    exists k: nat :: k > 0 && Ancestor(t, x, k) == Some(a)
  }

  // ---------------------------------------------------------------------
  // Ancestors
  // ---------------------------------------------------------------------

  lemma {:induction false} AncestorAdd(t: Table, x: nat, i: nat, j: nat)
    ensures Ancestor(t, x, i + j)
         == if Ancestor(t, x, i).Some? then Ancestor(t, Ancestor(t, x, i).value, j) else None
    decreases i
  {
    if i > 0 && x in t && t[x].Some? {
      AncestorAdd(t, t[x].value, i - 1, j);
    }
  }

  lemma {:induction false} AncestorInTable(t: Table, x: nat, k: nat)
    requires Closed(t) && x in t
    ensures Ancestor(t, x, k).Some? ==> Ancestor(t, x, k).value in t
    decreases k
  {
    if k > 0 && t[x].Some? {
      AncestorInTable(t, t[x].value, k - 1);
    }
  }

  lemma {:induction false} RankFalls(t: Table, rank: map<nat, nat>, x: nat, k: nat)
    requires Closed(t) && RankedBy(t, rank) && x in t
    ensures Ancestor(t, x, k).Some? ==>
              Ancestor(t, x, k).value in t && rank[Ancestor(t, x, k).value] + k <= rank[x]
    decreases k
  {
    if k > 0 && t[x].Some? {
      RankFalls(t, rank, t[x].value, k - 1);
    }
  }

  lemma ForestHasNoCycle(t: Table, x: nat)
    requires IsForest(t)
    ensures !Below(t, x, x)
  {
    if x in t {
      var rank :| RankedBy(t, rank);
      forall k: nat | k > 0
        ensures Ancestor(t, x, k) != Some(x)
      {
        RankFalls(t, rank, x, k);
      }
    }
  }

  /** In a forest an ancestor is not met again further up. */
  lemma MetOnce(t: Table, x: nat, i: nat, j: nat)
    requires IsForest(t) && Ancestor(t, x, i).Some? && i < j
    ensures Ancestor(t, x, i) != Ancestor(t, x, j)
  {
    ForestHasNoCycle(t, Ancestor(t, x, i).value);
    AncestorAdd(t, x, i, j - i);
  }

  // ---------------------------------------------------------------------
  // The two descriptions of a forest agree: ranked, and free of cycles
  // ---------------------------------------------------------------------

  ghost predicate NoRepeats(s: seq<nat>) {
    forall i, j | 0 <= i < j < |s| :: s[i] != s[j]
  }

  lemma {:induction false} NoRepeatsBound(s: seq<nat>, keys: set<nat>)
    requires NoRepeats(s) && forall x <- s :: x in keys
    ensures |s| <= |keys|
  {
    if s != [] {
      var n := |s| - 1;
      assert forall x <- s[..n] :: x in keys - {s[n]};
      NoRepeatsBound(s[..n], keys - {s[n]});
    }
  }

  ghost function Chain(t: Table, x: nat, n: nat): (c: seq<nat>)
    requires Ancestor(t, x, n).Some?
    ensures |c| == n + 1 && forall k | 0 <= k <= n :: Ancestor(t, x, k) == Some(c[k])
    decreases n
  {
    if n == 0 then [x] else [x] + Chain(t, t[x].value, n - 1)
  }

  lemma ChainsEnd(t: Table, x: nat)
    requires Closed(t) && x in t && forall y :: !Below(t, y, y)
    ensures Ancestor(t, x, |t|).None?
  {
    if Ancestor(t, x, |t|).Some? {
      var c := Chain(t, x, |t|);
      forall i, j | 0 <= i < j < |c|
        ensures c[i] != c[j]
      {
        AncestorAdd(t, x, i, j - i);
        assert !Below(t, c[i], c[i]);
      }
      forall k | 0 <= k < |c|
        ensures c[k] in t.Keys
      {
        AncestorInTable(t, x, k);
      }
      assert |t.Keys| == |t|;
      NoRepeatsBound(c, t.Keys);
    }
  }

  /** Steps from `x` to its root, counting at most `n`. */
  ghost function Steps(t: Table, x: nat, n: nat): nat
    decreases n
  {
    if n == 0 || x !in t || t[x].None? then 0 else 1 + Steps(t, t[x].value, n - 1)
  }

  lemma {:induction false} StepsStable(t: Table, x: nat, n: nat)
    requires Ancestor(t, x, n).None?
    ensures Steps(t, x, n) == Steps(t, x, n + 1)
    decreases n
  {
    if n > 0 && x in t && t[x].Some? {
      StepsStable(t, t[x].value, n - 1);
    }
  }

  lemma ForestIffNoCycle(t: Table)
    requires Closed(t)
    ensures IsForest(t) <==> forall x :: !Below(t, x, x)
  {
    if IsForest(t) {
      forall x ensures !Below(t, x, x) { ForestHasNoCycle(t, x); }
    }
    if forall x :: !Below(t, x, x) {
      var rank := map x | x in t :: Steps(t, x, |t|);
      forall x | x in t && t[x].Some?
        ensures rank[t[x].value] < rank[x]
      {
        ChainsEnd(t, x);
        assert |t| > 0;
        StepsStable(t, t[x].value, |t| - 1);
      }
      assert RankedBy(t, rank);
    }
  }

  // ---------------------------------------------------------------------
  // Moving one id under a new parent
  // ---------------------------------------------------------------------

  lemma {:induction false} AncestorUnmoved(t: Table, id: nat, p: nat, x: nat, k: nat)
    requires id in t && forall j | 0 <= j < k :: Ancestor(t, x, j) != Some(id)
    ensures Ancestor(t[id := Some(p)], x, k) == Ancestor(t, x, k)
    decreases k
  {
    if k > 0 {
      assert Ancestor(t, x, 0) == Some(x);
      if x in t && t[x].Some? {
        forall j | 0 <= j < k - 1
          ensures Ancestor(t, t[x].value, j) != Some(id)
        {
          assert Ancestor(t, x, j + 1) != Some(id);
        }
        AncestorUnmoved(t, id, p, t[x].value, k - 1);
      }
    }
  }

  /** Hanging `id` under `p` keeps the forest exactly when `p` is not `id` or below it. */
  lemma MoveKeepsForestIff(t: Table, id: nat, p: nat)
    requires IsForest(t) && id in t && p in t
    ensures IsForest(t[id := Some(p)]) <==> p != id && !Below(t, p, id)
  {
    var t' := t[id := Some(p)];
    if p == id {
      assert Ancestor(t', id, 1) == Some(id) by { assert Ancestor(t', id, 0) == Some(id); }
      assert Below(t', id, id);
      if IsForest(t') { ForestHasNoCycle(t', id); }
    } else if Below(t, p, id) {
      var k: nat :| k > 0 && Ancestor(t, p, k) == Some(id);
      MoveMakesCycle(t, id, p, k);
      if IsForest(t') { ForestHasNoCycle(t', id); }
    } else {
      MoveKeepsForest(t, id, p);
    }
  }

  lemma MoveMakesCycle(t: Table, id: nat, p: nat, k: nat)
    requires IsForest(t) && id in t && k > 0 && Ancestor(t, p, k) == Some(id)
    ensures Below(t[id := Some(p)], id, id)
  {
    var t' := t[id := Some(p)];
    forall j | 0 <= j < k
      ensures Ancestor(t, p, j) != Some(id)
    {
      if Ancestor(t, p, j) == Some(id) { MetOnce(t, p, j, k); }
    }
    AncestorUnmoved(t, id, p, p, k);
    assert Ancestor(t', id, k + 1) == Ancestor(t', p, k);
  }

  lemma MoveKeepsForest(t: Table, id: nat, p: nat)
    requires IsForest(t) && id in t && p in t && p != id && !Below(t, p, id)
    ensures IsForest(t[id := Some(p)])
  {
    var t' := t[id := Some(p)];
    var rank :| RankedBy(t, rank);
    var lift := rank[p] + 1;
    var rank' := map x | x in t' :: if x == id || Below(t, x, id) then rank[x] + lift else rank[x];
    forall x | x in t' && t'[x].Some?
      ensures rank'[t'[x].value] < rank'[x]
    {
      if x != id {
        ParentBelow(t, x, id);
      }
    }
    assert RankedBy(t', rank');
  }

  /** Whoever has a parent is below `a` exactly when the parent is `a` or below it. */
  lemma ParentBelow(t: Table, x: nat, a: nat)
    requires x in t && t[x].Some?
    ensures Below(t, x, a) <==> t[x].value == a || Below(t, t[x].value, a)
  {
    var p := t[x].value;
    if Below(t, x, a) {
      var k: nat :| k > 0 && Ancestor(t, x, k) == Some(a);
      assert Ancestor(t, p, k - 1) == Some(a);
    }
    if p == a {
      assert Ancestor(t, p, 0) == Some(a);
      assert Ancestor(t, x, 1) == Some(a);
    }
    if Below(t, p, a) {
      var k: nat :| k > 0 && Ancestor(t, p, k) == Some(a);
      assert Ancestor(t, x, k + 1) == Some(a);
    }
  }

  // ---------------------------------------------------------------------
  // Rows of a table
  // ---------------------------------------------------------------------

  ghost predicate UniqueIds(rows: seq<Row>) {
    forall i, j | 0 <= i < j < |rows| :: rows[i].id != rows[j].id
  }

  /** `rows` are some of the entries of `t`, each once. */
  ghost predicate RowsOf(rows: seq<Row>, t: Table) {
    UniqueIds(rows) && forall r <- rows :: r.id in t && t[r.id] == r.parent
  }

  ghost predicate Listed(rows: seq<Row>, x: nat) {
    exists r <- rows :: r.id == x
  }

  /** `rows` are all the entries of `t`, each once. */
  ghost predicate AllRowsOf(rows: seq<Row>, t: Table) {
    RowsOf(rows, t) && forall x | x in t :: Listed(rows, x)
  }

  function ChildrenOf(rows: seq<Row>, parent: Option<nat>): seq<nat> {
    if rows == [] then []
    else
      var n := |rows| - 1;
      ChildrenOf(rows[..n], parent) + (if rows[n].parent == parent then [rows[n].id] else [])
  }

  lemma {:induction false} ChildrenMembers(rows: seq<Row>, parent: Option<nat>)
    ensures forall x :: x in ChildrenOf(rows, parent) <==> exists r <- rows :: r.id == x && r.parent == parent
  {
    if rows != [] {
      var n := |rows| - 1;
      ChildrenMembers(rows[..n], parent);
      assert rows == rows[..n] + [rows[n]];
    }
  }

  /** Listing one more row after some of the earlier ones repeats no id. */
  lemma OneMoreDistinct(rows: seq<Row>, n: nat, ids: seq<nat>)
    requires UniqueIds(rows) && n < |rows| && NoRepeats(ids)
    requires forall x <- ids :: exists r <- rows[..n] :: r.id == x
    ensures NoRepeats(ids + [rows[n].id])
  {
    var all := ids + [rows[n].id];
    forall i, j | 0 <= i < j < |all|
      ensures all[i] != all[j]
    {
      assert all[i] == ids[i] && ids[i] in ids;
      if j == |ids| {
        var r :| r in rows[..n] && r.id == ids[i];
        var k :| 0 <= k < n && rows[k] == r;
      } else {
        assert all[j] == ids[j];
      }
    }
  }

  lemma {:induction false} ChildrenDistinct(rows: seq<Row>, parent: Option<nat>)
    requires UniqueIds(rows)
    ensures NoRepeats(ChildrenOf(rows, parent))
  {
    if rows != [] {
      var n := |rows| - 1;
      ChildrenDistinct(rows[..n], parent);
      ChildrenMembers(rows[..n], parent);
      OneMoreDistinct(rows, n, ChildrenOf(rows[..n], parent));
    }
  }

  // ---------------------------------------------------------------------
  // The recursive tree builder
  // ---------------------------------------------------------------------

  datatype Node = Node(id: nat, children: seq<Node>)

  ghost function Descendants(t: Table, x: nat): set<nat> {
    set y | y in t && Below(t, y, x)
  }

  lemma DescendantsShrink(t: Table, x: nat, c: nat)
    requires IsForest(t) && c in t && t[c] == Some(x)
    ensures Descendants(t, c) < Descendants(t, x)
  {
    assert Ancestor(t, x, 0) == Some(x);
    assert Ancestor(t, c, 1) == Some(x);
    assert c in Descendants(t, x);
    ForestHasNoCycle(t, c);
    assert c !in Descendants(t, c);
    forall y | y in Descendants(t, c)
      ensures y in Descendants(t, x)
    {
      var k: nat :| k > 0 && Ancestor(t, y, k) == Some(c);
      AncestorAdd(t, y, k, 1);
    }
  }

  lemma ListedChild(t: Table, rows: seq<Row>, c: nat, parent: Option<nat>)
    requires RowsOf(rows, t)
    ensures c in ChildrenOf(rows, parent) <==> Listed(rows, c) && t[c] == parent
  {
    ChildrenMembers(rows, parent);
    if Listed(rows, c) && t[c] == parent {
      var r :| r in rows && r.id == c;
      assert r.parent == parent;
    }
  }

  /** The node of `x`; it terminates because fewer ids lie below each child. */
  ghost function BuildNode(t: Table, rows: seq<Row>, x: nat): Node
    requires IsForest(t) && RowsOf(rows, t)
    decreases Descendants(t, x)
  {
    var cs := ChildrenOf(rows, Some(x));
    ChildrenMembers(rows, Some(x));
    assert forall c <- cs :: Descendants(t, c) < Descendants(t, x) by {
      forall c | c in cs
        ensures Descendants(t, c) < Descendants(t, x)
      {
        DescendantsShrink(t, x, c);
      }
    }
    Node(x, seq(|cs|, i requires 0 <= i < |cs| => BuildNode(t, rows, cs[i])))
  }

  ghost function BuildNodes(t: Table, rows: seq<Row>, xs: seq<nat>): (ns: seq<Node>)
    requires IsForest(t) && RowsOf(rows, t)
    ensures |ns| == |xs|
  {
    seq(|xs|, i requires 0 <= i < |xs| => BuildNode(t, rows, xs[i]))
  }

  ghost function BuildTree(t: Table, rows: seq<Row>, parent: Option<nat>): seq<Node>
    requires IsForest(t) && RowsOf(rows, t)
  {
    BuildNodes(t, rows, ChildrenOf(rows, parent))
  }

  function Ids(nodes: seq<Node>): seq<nat> {
    if nodes == [] then []
    else [nodes[0].id] + Ids(nodes[0].children) + Ids(nodes[1..])
  }

  /** Every node stands under its own parent. */
  ghost predicate FollowsParents(t: Table, nodes: seq<Node>, parent: Option<nat>) {
    forall i | 0 <= i < |nodes| ::
      && nodes[i].id in t && t[nodes[i].id] == parent
      && FollowsParents(t, nodes[i].children, Some(nodes[i].id))
  }

  lemma {:induction false} NodeFollowsParents(t: Table, rows: seq<Row>, x: nat)
    requires IsForest(t) && RowsOf(rows, t)
    ensures BuildNode(t, rows, x).id == x && FollowsParents(t, BuildNode(t, rows, x).children, Some(x))
    decreases Descendants(t, x)
  {
    var cs := ChildrenOf(rows, Some(x));
    forall i | 0 <= i < |cs|
      ensures cs[i] in t && t[cs[i]] == Some(x)
      ensures var n := BuildNode(t, rows, cs[i]); n.id == cs[i] && FollowsParents(t, n.children, Some(cs[i]))
    {
      assert cs[i] in cs;
      ListedChild(t, rows, cs[i], Some(x));
      DescendantsShrink(t, x, cs[i]);
      NodeFollowsParents(t, rows, cs[i]);
    }
  }

  /** The tree that is built has the parent of every node right above it, and siblings in query order. */
  lemma TreeFollowsParents(t: Table, rows: seq<Row>, parent: Option<nat>)
    requires IsForest(t) && RowsOf(rows, t)
    ensures FollowsParents(t, BuildTree(t, rows, parent), parent)
    ensures var roots := BuildTree(t, rows, parent);
            && |roots| == |ChildrenOf(rows, parent)|
            && forall i | 0 <= i < |roots| :: roots[i].id == ChildrenOf(rows, parent)[i]
  {
    var xs := ChildrenOf(rows, parent);
    forall i | 0 <= i < |xs|
      ensures xs[i] in t && t[xs[i]] == parent
      ensures var n := BuildNode(t, rows, xs[i]); n.id == xs[i] && FollowsParents(t, n.children, Some(xs[i]))
    {
      assert xs[i] in xs;
      ListedChild(t, rows, xs[i], parent);
      NodeFollowsParents(t, rows, xs[i]);
    }
  }

  /** The ids of the trees under `xs`, in the order the recursion lists them. */
  ghost function TreeIds(t: Table, rows: seq<Row>, xs: seq<nat>): seq<nat>
    requires IsForest(t) && RowsOf(rows, t)
  {
    Ids(BuildNodes(t, rows, xs))
  }

  lemma TreeIdsCons(t: Table, rows: seq<Row>, xs: seq<nat>)
    requires IsForest(t) && RowsOf(rows, t) && xs != []
    ensures TreeIds(t, rows, xs)
         == [xs[0]] + TreeIds(t, rows, ChildrenOf(rows, Some(xs[0]))) + TreeIds(t, rows, xs[1..])
  {
    var ns := BuildNodes(t, rows, xs);
    assert ns[1..] == BuildNodes(t, rows, xs[1..]);
    assert ns[0].children == BuildNodes(t, rows, ChildrenOf(rows, Some(xs[0])));
  }

  /** From `y` up to `x`, everything strictly below `x` is listed. */
  ghost predicate Reaches(t: Table, rows: seq<Row>, y: nat, x: nat) {
    exists k: nat :: ReachesIn(t, rows, y, x, k)
  }

  ghost predicate ReachesIn(t: Table, rows: seq<Row>, y: nat, x: nat, k: nat) {
    Ancestor(t, y, k) == Some(x)
    && forall j: nat | j < k :: Ancestor(t, y, j).Some? && Listed(rows, Ancestor(t, y, j).value)
  }

  /** Among distinct siblings at most one is reached. */
  lemma SiblingsExclusive(t: Table, rows: seq<Row>, y: nat, c: nat, d: nat)
    requires IsForest(t) && c in t && d in t && t[c] == t[d]
    requires Reaches(t, rows, y, c) && Reaches(t, rows, y, d)
    ensures c == d
  {
    var k: nat :| ReachesIn(t, rows, y, c, k);
    var l: nat :| ReachesIn(t, rows, y, d, l);
    if k < l {
      AncestorAdd(t, y, k, l - k);
      SiblingNotAbove(t, c, d, l - k);
    } else if l < k {
      AncestorAdd(t, y, l, k - l);
      SiblingNotAbove(t, d, c, k - l);
    }
  }

  lemma SiblingNotAbove(t: Table, c: nat, d: nat, k: nat)
    requires IsForest(t) && c in t && d in t && t[c] == t[d] && k > 0
    ensures Ancestor(t, c, k) != Some(d)
  {
    if Ancestor(t, c, k) == Some(d) {
      var p := t[c].value;
      AncestorAdd(t, c, k, 1);
      AncestorAdd(t, c, 1, k);
      assert Ancestor(t, d, 0) == Some(d) && Ancestor(t, d, 1) == Some(p);
      assert Ancestor(t, c, k + 1) == Some(p);
      assert Ancestor(t, p, k) == Some(p);
      assert Below(t, p, p);
      ForestHasNoCycle(t, p);
    }
  }

  ghost predicate ReachesAny(t: Table, rows: seq<Row>, y: nat, xs: seq<nat>) {
    exists x <- xs :: Reaches(t, rows, y, x)
  }

  /** Reaching `x` means being `x`, or reaching one of its listed children. */
  lemma ReachesViaChild(t: Table, rows: seq<Row>, y: nat, x: nat)
    requires IsForest(t) && RowsOf(rows, t)
    ensures Reaches(t, rows, y, x) <==> y == x || ReachesAny(t, rows, y, ChildrenOf(rows, Some(x)))
    ensures !ReachesAny(t, rows, x, ChildrenOf(rows, Some(x)))
  {
    ChildrenMembers(rows, Some(x));
    if Reaches(t, rows, y, x) && y != x {
      var k: nat :| ReachesIn(t, rows, y, x, k);
      var c := Ancestor(t, y, k - 1).value;
      AncestorAdd(t, y, k - 1, 1);
      assert Listed(rows, c);
      assert Ancestor(t, c, 1) == Some(x);
      assert c in t && t[c].Some? && Ancestor(t, t[c].value, 0) == Some(x);
      ListedChild(t, rows, c, Some(x));
      assert ReachesIn(t, rows, y, c, k - 1);
    }
    if y == x {
      assert ReachesIn(t, rows, y, x, 0);
    }
    forall c | c in ChildrenOf(rows, Some(x))
      ensures Reaches(t, rows, y, c) ==> Reaches(t, rows, y, x)
      ensures !Reaches(t, rows, x, c)
    {
      assert Ancestor(t, x, 0) == Some(x) && Ancestor(t, c, 1) == Some(x);
      if Reaches(t, rows, y, c) {
        var k: nat :| ReachesIn(t, rows, y, c, k);
        AncestorAdd(t, y, k, 1);
        assert ReachesIn(t, rows, y, x, k + 1);
      }
      if Reaches(t, rows, x, c) {
        var k: nat :| ReachesIn(t, rows, x, c, k);
        AncestorAdd(t, x, k, 1);
        ForestHasNoCycle(t, x);
      }
    }
  }

  ghost predicate Siblings(t: Table, xs: seq<nat>) {
    NoRepeats(xs) && forall x, x' | x in xs && x' in xs :: x in t && x' in t && t[x] == t[x']
  }

  lemma {:induction false} ChildrenAreSiblings(t: Table, rows: seq<Row>, parent: Option<nat>)
    requires RowsOf(rows, t)
    ensures Siblings(t, ChildrenOf(rows, parent))
  {
    ChildrenMembers(rows, parent);
    ChildrenDistinct(rows, parent);
  }

  /** Of siblings, the first is reached or one of the others, never both. */
  lemma ReachesFirstOrRest(t: Table, rows: seq<Row>, y: nat, xs: seq<nat>)
    requires IsForest(t) && RowsOf(rows, t) && Siblings(t, xs) && xs != []
    ensures ReachesAny(t, rows, y, xs) <==> Reaches(t, rows, y, xs[0]) || ReachesAny(t, rows, y, xs[1..])
    ensures !(Reaches(t, rows, y, xs[0]) && ReachesAny(t, rows, y, xs[1..]))
  {
    assert xs == [xs[0]] + xs[1..];
    forall x | x in xs[1..] && Reaches(t, rows, y, x) && Reaches(t, rows, y, xs[0])
      ensures false
    {
      SiblingsExclusive(t, rows, y, xs[0], x);
    }
  }

  function One(b: bool): nat { if b then 1 else 0 }

  /**
   The builder lists `y` under siblings `xs` exactly once if `y` reaches one of
   them through listed rows, and not at all otherwise.
   */
  lemma {:induction false} TreeIdsCount(t: Table, rows: seq<Row>, xs: seq<nat>, y: nat, bound: set<nat>)
    requires IsForest(t) && RowsOf(rows, t) && Siblings(t, xs)
    requires forall x <- xs :: Descendants(t, x) < bound
    ensures multiset(TreeIds(t, rows, xs))[y] == One(ReachesAny(t, rows, y, xs))
    decreases bound, |xs|
  {
    if xs != [] {
      var x, rest := xs[0], xs[1..];
      var cs := ChildrenOf(rows, Some(x));
      ChildrenBelow(t, rows, x);
      ChildrenAreSiblings(t, rows, Some(x));
      TreeIdsCount(t, rows, cs, y, Descendants(t, x));
      RestIsSiblings(t, xs);
      TreeIdsCount(t, rows, rest, y, bound);
      TreeIdsCons(t, rows, xs);
      ReachesViaChild(t, rows, y, x);
      ReachesFirstOrRest(t, rows, y, xs);
    }
  }

  lemma RestIsSiblings(t: Table, xs: seq<nat>)
    requires Siblings(t, xs) && xs != []
    ensures Siblings(t, xs[1..]) && forall x <- xs[1..] :: x in xs
  {
  }

  lemma ChildrenBelow(t: Table, rows: seq<Row>, x: nat)
    requires IsForest(t) && RowsOf(rows, t)
    ensures forall c <- ChildrenOf(rows, Some(x)) :: Descendants(t, c) < Descendants(t, x)
  {
    ChildrenMembers(rows, Some(x));
    forall c | c in ChildrenOf(rows, Some(x))
      ensures Descendants(t, c) < Descendants(t, x)
    {
      DescendantsShrink(t, x, c);
    }
  }

  /** `y` and all its ancestors are listed. */
  ghost predicate WholeChainListed(t: Table, rows: seq<Row>, y: nat) {
    y in t && forall k: nat :: Ancestor(t, y, k).Some? ==> Listed(rows, Ancestor(t, y, k).value)
  }

  /**
   The tree built from the root contains exactly the ids whose whole chain of
   ancestors is listed, each once.
   */
  lemma TreeHoldsWholeChains(t: Table, rows: seq<Row>, y: nat)
    requires IsForest(t) && RowsOf(rows, t)
    ensures multiset(Ids(BuildTree(t, rows, None)))[y] == One(WholeChainListed(t, rows, y))
  {
    var xs := ChildrenOf(rows, None);
    ChildrenAreSiblings(t, rows, None);
    ChildrenMembers(rows, None);
    forall x | x in xs
      ensures Descendants(t, x) < t.Keys
    {
      ForestHasNoCycle(t, x);
      assert x in t.Keys && x !in Descendants(t, x);
    }
    TreeIdsCount(t, rows, xs, y, t.Keys);
    ReachingRootIsWholeChain(t, rows, y);
  }

  lemma ReachingRootIsWholeChain(t: Table, rows: seq<Row>, y: nat)
    requires IsForest(t) && RowsOf(rows, t)
    ensures ReachesAny(t, rows, y, ChildrenOf(rows, None)) <==> WholeChainListed(t, rows, y)
  {
    ChildrenMembers(rows, None);
    if ReachesAny(t, rows, y, ChildrenOf(rows, None)) {
      var r :| r in ChildrenOf(rows, None) && Reaches(t, rows, y, r);
      var k: nat :| ReachesIn(t, rows, y, r, k);
      assert Ancestor(t, r, 1) == None && Listed(rows, r);
      forall j: nat | Ancestor(t, y, j).Some?
        ensures Listed(rows, Ancestor(t, y, j).value)
      {
        if j > k {
          AncestorAdd(t, y, k, 1);
          AncestorAdd(t, y, k + 1, j - k - 1);
        }
      }
      assert y in t;
    }
    if WholeChainListed(t, rows, y) {
      var k := RootDistance(t, y);
      var r := Ancestor(t, y, k).value;
      assert Listed(rows, r);
      assert Ancestor(t, r, 1) == None by { AncestorAdd(t, y, k, 1); }
      AncestorInTable(t, y, k);
      assert t[r] == None;
      ListedChild(t, rows, r, None);
      forall j: nat | j < k
        ensures Ancestor(t, y, j).Some?
      {
        AncestorAdd(t, y, j, k - j);
      }
      assert ReachesIn(t, rows, y, r, k);
    }
  }

  /** How far above `y` its root is. */
  lemma RootDistance(t: Table, y: nat) returns (k: nat)
    requires IsForest(t) && y in t
    ensures Ancestor(t, y, k).Some? && Ancestor(t, y, k + 1).None?
  {
    var rank :| RankedBy(t, rank);
    k := ClimbToRoot(t, rank, y);
  }

  lemma {:induction false} ClimbToRoot(t: Table, rank: map<nat, nat>, y: nat) returns (k: nat)
    requires Closed(t) && RankedBy(t, rank) && y in t
    ensures Ancestor(t, y, k).Some? && Ancestor(t, y, k + 1).None?
    decreases rank[y]
  {
    if t[y].None? {
      k := 0;
    } else {
      var m := ClimbToRoot(t, rank, t[y].value);
      k := m + 1;
    }
  }
}
