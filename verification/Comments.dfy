/**
 Threads of comments: the walk over a map of children with an explicit stack, and
 the recursive tree built from what the walk found.
 */
module Comments {
  import opened Options
  import opened Forest

  /** Comments only ever answer earlier ones, so their ids rank them. */
  ghost predicate Threaded(t: Table) {
    Closed(t) && forall x | x in t && t[x].Some? :: t[x].value < x
  }

  lemma ThreadsAreForest(t: Table)
    requires Threaded(t)
    ensures IsForest(t)
  {
    assert RankedBy(t, map x | x in t :: x);
  }

  // ---------------------------------------------------------------------
  // Writing and deleting comments
  // ---------------------------------------------------------------------

  datatype Commented = Product | BlogPost

  /** What a comment is on. */
  datatype Thread = Thread(on: Commented, id: nat)

  /** A reply is in the thread of the comment it answers. */
  ghost predicate SharesThread(t: Table, threads: map<nat, Thread>) {
    && threads.Keys == t.Keys
    && forall x | x in t && t[x].Some? :: t[x].value in t && threads[x] == threads[t[x].value]
  }

  /** So a whole chain of replies, up to its root, is in one thread. */
  lemma {:induction false} ChainSharesThread(t: Table, threads: map<nat, Thread>, x: nat, k: nat)
    requires Closed(t) && SharesThread(t, threads) && Ancestor(t, x, k).Some? && x in t
    ensures Ancestor(t, x, k).value in t && threads[Ancestor(t, x, k).value] == threads[x]
    decreases k
  {
    if k > 0 {
      ChainSharesThread(t, threads, t[x].value, k - 1);
    }
  }

  class CommentTable {
    /** The products and posts there are. */
    var commentables: set<Thread>
    var table: Table
    var threads: map<nat, Thread>
    var authors: map<nat, nat>
    var next: nat

    /** Parents are earlier comments of the same thread; every comment has an author. */
    ghost predicate Valid()
      reads this
    {
      && Threaded(table) && next > 0 && (forall x | x in table :: 0 < x < next)
      && SharesThread(table, threads)
      && authors.Keys == table.Keys
    }

    constructor (commentables: set<Thread>)
      ensures Valid() && table == map[] && threads == map[] && authors == map[] && this.commentables == commentables
    {
      this.commentables := commentables;
      table, threads, authors, next := map[], map[], map[], 1;
    }

    /** The parent, if given, is a comment of the same thread. */
    predicate ParentFits(thread: Thread, parent: Option<nat>)
      requires Valid()
      reads this
    {
      parent.Some? ==> parent.value in table && threads[parent.value] == thread
    }

    /**
     The product or post must exist, and the parent must be a comment on it. A parent of 0
     skips that check and is then refused by the foreign key of the parent column.
     */
    method CreateComment(user: nat, thread: Thread, parent: Option<nat>) returns (r: Result<nat>)
      requires Valid()
      modifies `table, `threads, `authors, `next
      ensures Valid()
      ensures r.Ok? <==> thread in commentables && old(ParentFits(thread, parent))
      ensures r == Err(NotFound) <==> thread !in commentables
      ensures r.Ok? ==> r == Ok(old(next)) && r.value !in old(table) && next == old(next) + 1
      ensures r.Ok? ==> table == old(table)[r.value := parent] && threads == old(threads)[r.value := thread]
      ensures r.Ok? ==> authors == old(authors)[r.value := user]
      ensures r.Err? ==> table == old(table) && threads == old(threads) && authors == old(authors) && next == old(next)
    {
      if thread !in commentables {
        return Err(NotFound);
      }
      if parent.Some? && parent.value != 0 {
        if parent.value !in table || threads[parent.value] != thread {
          return Err(BadRequest);
        }
      }
      if parent == Some(0) {
        return Err(Conflict);
      }
      r := Ok(next);
      table := table[next := parent];
      threads := threads[next := thread];
      authors := authors[next := user];
      next := next + 1;
    }

    /** For its author or for staff; anybody else is told that there is no such comment. */
    method DeleteComment(user: nat, id: nat, isStaff: bool) returns (r: Result<nat>)
      requires Valid()
      modifies `table, `threads, `authors
      ensures Valid()
      ensures r == Err(NotFound) <==> id !in old(table) || (!isStaff && old(authors)[id] != user)
      ensures r.Ok? <==>
                && id in old(table) && (isStaff || old(authors)[id] == user)
                && forall c | c in old(table) :: old(table)[c] != Some(id)
      ensures table == if r.Ok? then old(table) - {id} else old(table)
      ensures threads == if r.Ok? then old(threads) - {id} else old(threads)
      ensures authors == if r.Ok? then old(authors) - {id} else old(authors)
    {
      if id !in table {
        return Err(NotFound);
      }
      if !isStaff && authors[id] != user {
        return Err(NotFound);
      }
      if exists c <- table.Keys :: table[c] == Some(id) {
        return Err(Conflict);
      }
      table := table - {id};
      threads := threads - {id};
      authors := authors - {id};
      r := Ok(id);
    }
  }

  // ---------------------------------------------------------------------
  // The walk with an explicit stack
  // ---------------------------------------------------------------------

  /** `m` files every row under its parent, in query order. */
  ghost predicate FilesChildren(rows: seq<Row>, m: map<Option<nat>, seq<nat>>) {
    forall key: Option<nat> ::
      && (key in m ==> m[key] == ChildrenOf(rows, key))
      && (key !in m ==> ChildrenOf(rows, key) == [])
  }

  method FileChildren(rows: seq<Row>) returns (m: map<Option<nat>, seq<nat>>)
    ensures FilesChildren(rows, m)
  {
    m := map[];
    for i := 0 to |rows|
      invariant FilesChildren(rows[..i], m)
    {
      var key := rows[i].parent;
      assert rows[..i + 1][..i] == rows[..i];
      if key !in m {
        m := m[key := []];
      }
      m := m[key := m[key] + [rows[i].id]];
    }
    assert rows[..|rows|] == rows;
  }

  lemma {:induction false} TreeIdsConcat(t: Table, rows: seq<Row>, xs: seq<nat>, ys: seq<nat>)
    requires IsForest(t) && RowsOf(rows, t)
    ensures TreeIds(t, rows, xs + ys) == TreeIds(t, rows, xs) + TreeIds(t, rows, ys)
  {
    if xs == [] {
      assert xs + ys == ys;
    } else {
      assert (xs + ys)[1..] == xs[1..] + ys;
      TreeIdsCons(t, rows, xs + ys);
      TreeIdsCons(t, rows, xs);
      TreeIdsConcat(t, rows, xs[1..], ys);
    }
  }

  lemma TreeIdsOfOne(t: Table, rows: seq<Row>, x: nat)
    requires IsForest(t) && RowsOf(rows, t)
    ensures TreeIds(t, rows, [x]) == [x] + TreeIds(t, rows, ChildrenOf(rows, Some(x)))
  {
    TreeIdsCons(t, rows, [x]);
  }

  /** Popping an id and pushing its children trades a tree for its root and its subtrees. */
  lemma {:induction false} PopPush(t: Table, rows: seq<Row>, rest: seq<nat>, x: nat)
    requires IsForest(t) && RowsOf(rows, t)
    ensures multiset(TreeIds(t, rows, rest + [x]))
         == multiset{x} + multiset(TreeIds(t, rows, rest + ChildrenOf(rows, Some(x))))
    ensures |TreeIds(t, rows, rest + [x])| == 1 + |TreeIds(t, rows, rest + ChildrenOf(rows, Some(x)))|
  {
    TreeIdsConcat(t, rows, rest, [x]);
    TreeIdsConcat(t, rows, rest, ChildrenOf(rows, Some(x)));
    TreeIdsOfOne(t, rows, x);
  }

  /** One turn of the walk: what is visited and what the stack still holds make up `all`. */
  lemma WalkStep(t: Table, rows: seq<Row>, result: seq<nat>, stack: seq<nat>, all: multiset<nat>)
    requires IsForest(t) && RowsOf(rows, t) && stack != []
    requires multiset(result) + multiset(TreeIds(t, rows, stack)) == all
    ensures var n := |stack| - 1; var stack' := stack[..n] + ChildrenOf(rows, Some(stack[n]));
            && multiset(result + [stack[n]]) + multiset(TreeIds(t, rows, stack')) == all
            && |TreeIds(t, rows, stack')| < |TreeIds(t, rows, stack)|
  {
    var n := |stack| - 1;
    assert stack == stack[..n] + [stack[n]];
    PopPush(t, rows, stack[..n], stack[n]);
  }

  /** The walk ends and visits exactly what the recursion lists, as often as it lists it. */
  method GetDescendantIds(rootIds: seq<nat>, rows: seq<Row>, ghost t: Table) returns (result: seq<nat>)
    requires IsForest(t) && RowsOf(rows, t)
    ensures multiset(result) == multiset(TreeIds(t, rows, rootIds))
  {
    if |rootIds| == 0 {
      return [];
    }
    var childrenMap := FileChildren(rows);
    result := [];
    var stack := rootIds;
    while |stack| > 0
      invariant multiset(result) + multiset(TreeIds(t, rows, stack)) == multiset(TreeIds(t, rows, rootIds))
      decreases |TreeIds(t, rows, stack)|
    {
      var n := |stack| - 1;
      var id := stack[n];
      WalkStep(t, rows, result, stack, multiset(TreeIds(t, rows, rootIds)));
      stack := stack[..n];
      result := result + [id];
      if Some(id) in childrenMap {
        stack := stack + childrenMap[Some(id)];
      } else {
        assert stack + ChildrenOf(rows, Some(id)) == stack;
      }
    }
  }

  // ---------------------------------------------------------------------
  // The page of approved comments
  // ---------------------------------------------------------------------

  /** Distinct top-level comments among the approved rows. */
  ghost predicate AreRoots(t: Table, approved: seq<Row>, rootIds: seq<nat>) {
    NoRepeats(rootIds) && forall r <- rootIds :: r in ChildrenOf(approved, None)
  }

  lemma RootsAreSiblings(t: Table, approved: seq<Row>, rootIds: seq<nat>)
    requires RowsOf(approved, t) && AreRoots(t, approved, rootIds)
    ensures Siblings(t, rootIds)
  {
    ChildrenMembers(approved, None);
  }

  /** Each approved comment is visited once if approved replies lead up to a root, else not at all. */
  lemma WalkVisitsOnce(t: Table, approved: seq<Row>, rootIds: seq<nat>, y: nat)
    requires IsForest(t) && RowsOf(approved, t) && AreRoots(t, approved, rootIds)
    ensures multiset(TreeIds(t, approved, rootIds))[y] == One(ReachesAny(t, approved, y, rootIds))
  {
    RootsAreSiblings(t, approved, rootIds);
    forall x | x in rootIds
      ensures Descendants(t, x) < t.Keys
    {
      ListedChild(t, approved, x, None);
      ForestHasNoCycle(t, x);
      assert x in t.Keys && x !in Descendants(t, x);
    }
    TreeIdsCount(t, approved, rootIds, y, t.Keys);
  }

  /** `page` is the second query: the approved rows whose id the walk returned, in some order. */
  ghost predicate IsPage(approved: seq<Row>, ids: multiset<nat>, page: seq<Row>) {
    && UniqueIds(page)
    && forall r :: r in page <==> r in approved && r.id in ids
  }

  /**
   The page is complete and nothing on it is listed twice: the tree that is built
   from the second query holds exactly the ids the walk visited.
   */
  lemma TreeMatchesWalk(t: Table, approved: seq<Row>, rootIds: seq<nat>, page: seq<Row>)
    requires IsForest(t) && RowsOf(approved, t) && AreRoots(t, approved, rootIds)
    requires IsPage(approved, multiset(TreeIds(t, approved, rootIds)), page)
    ensures RowsOf(page, t)
    ensures multiset(Ids(BuildTree(t, page, None))) == multiset(TreeIds(t, approved, rootIds))
  {
    var walk := multiset(TreeIds(t, approved, rootIds));
    var tree := multiset(Ids(BuildTree(t, page, None)));
    forall y: nat
      ensures tree[y] == walk[y]
    {
      WalkVisitsOnce(t, approved, rootIds, y);
      TreeHoldsWholeChains(t, page, y);
      OnPageIff(t, approved, rootIds, page, y);
    }
  }

  lemma OnPageIff(t: Table, approved: seq<Row>, rootIds: seq<nat>, page: seq<Row>, y: nat)
    requires IsForest(t) && RowsOf(approved, t) && AreRoots(t, approved, rootIds)
    requires IsPage(approved, multiset(TreeIds(t, approved, rootIds)), page)
    ensures WholeChainListed(t, page, y) <==> ReachesAny(t, approved, y, rootIds)
  {
    if WholeChainListed(t, page, y) {
      assert Ancestor(t, y, 0) == Some(y);
      ListedOnPage(t, approved, rootIds, page, y);
    }
    if ReachesAny(t, approved, y, rootIds) {
      var r :| r in rootIds && Reaches(t, approved, y, r);
      var k: nat :| ReachesIn(t, approved, y, r, k);
      forall j: nat | Ancestor(t, y, j).Some?
        ensures Listed(page, Ancestor(t, y, j).value)
      {
        ChainOnPage(t, approved, rootIds, page, y, r, k, j);
      }
      assert Ancestor(t, y, 0) == Some(y);
      assert y in t;
    }
  }

  /** Every ancestor of a comment that reaches the root `r` in `k` steps is on the page. */
  lemma ChainOnPage(t: Table, approved: seq<Row>, rootIds: seq<nat>, page: seq<Row>, y: nat, r: nat, k: nat, j: nat)
    requires IsForest(t) && RowsOf(approved, t) && AreRoots(t, approved, rootIds)
    requires IsPage(approved, multiset(TreeIds(t, approved, rootIds)), page)
    requires r in rootIds && ReachesIn(t, approved, y, r, k) && Ancestor(t, y, j).Some?
    ensures Listed(page, Ancestor(t, y, j).value)
  {
    ListedChild(t, approved, r, None);
    assert Ancestor(t, r, 1) == None;
    if j > k {
      AncestorAdd(t, y, k, 1);
      AncestorAdd(t, y, k + 1, j - k - 1);
    }
    UpTheChain(t, approved, y, r, k, j);
    ListedOnPage(t, approved, rootIds, page, Ancestor(t, y, j).value);
  }

  lemma ListedOnPage(t: Table, approved: seq<Row>, rootIds: seq<nat>, page: seq<Row>, y: nat)
    requires IsForest(t) && RowsOf(approved, t) && AreRoots(t, approved, rootIds)
    requires IsPage(approved, multiset(TreeIds(t, approved, rootIds)), page)
    ensures Listed(page, y) <==> Listed(approved, y) && ReachesAny(t, approved, y, rootIds)
  {
    WalkVisitsOnce(t, approved, rootIds, y);
    if Listed(approved, y) && ReachesAny(t, approved, y, rootIds) {
      var r :| r in approved && r.id == y;
      assert r in page;
    }
  }

  lemma UpTheChain(t: Table, rows: seq<Row>, y: nat, r: nat, k: nat, j: nat)
    requires ReachesIn(t, rows, y, r, k) && j <= k && Listed(rows, r)
    ensures Ancestor(t, y, j).Some? && Listed(rows, Ancestor(t, y, j).value)
    ensures Reaches(t, rows, Ancestor(t, y, j).value, r)
  {
    if j < k {
      var a := Ancestor(t, y, j).value;
      AncestorAdd(t, y, j, k - j);
      forall i: nat | i < k - j
        ensures Ancestor(t, a, i).Some? && Listed(rows, Ancestor(t, a, i).value)
      {
        AncestorAdd(t, y, j, i);
      }
      assert ReachesIn(t, rows, a, r, k - j);
    } else {
      assert ReachesIn(t, rows, r, r, 0);
    }
  }
}
