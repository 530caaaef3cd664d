/**
 The category service: the guarded create, move and delete of categories, and the
 level-by-level search for the categories below one.
 */
module Category {
  import opened Options
  import opened Along
  import opened Forest

  /** The parent field of a request: left out, or a number (0 counts as "no check"). */
  datatype ParentInput = Keep | Given(id: nat)

  datatype Request =
    | Create(parent: ParentInput)
    | Update(id: nat, parent: ParentInput)
    | Delete(id: nat)

  datatype Store = Store(table: Table, next: nat)

  /** Ids are positive, grow, and the parent relation is a forest. */
  ghost predicate Good(s: Store) {
    IsForest(s.table) && s.next > 0 && forall x | x in s.table :: 0 < x < s.next
  }

  /** The guard on a new parent; `self` is None for a category that does not exist yet. */
  ghost function ParentError(t: Table, p: nat, self: Option<nat>): Option<Error> {
    if p !in t then Some(BadRequest)
    else if self == None then None
    else if p == self.value || Below(t, p, self.value) then Some(BadRequest)
    else None
  }

  /**
   One request run alone. A parent of 0 skips the guard and is then refused by
   the foreign key of the parent column.
   */
  ghost function Apply(s: Store, r: Request): (Store, Result<nat>)
  {
    match r
    case Create(input) =>
      var parent := if input.Given? then Some(input.id) else None;
      if parent.Some? && parent.value != 0 && ParentError(s.table, parent.value, None).Some? then
        (s, Err(BadRequest))
      else if parent == Some(0) then (s, Err(Conflict))
      else (Store(s.table[s.next := parent], s.next + 1), Ok(s.next))
    case Update(id, input) =>
      if id !in s.table then (s, Err(NotFound))
      else if input.Given? && input.id != 0 && ParentError(s.table, input.id, Some(id)).Some? then
        (s, Err(BadRequest))
      else if input == Given(0) then (s, Err(Conflict))
      else (s.(table := if input.Given? then s.table[id := Some(input.id)] else s.table), Ok(id))
    case Delete(id) =>
      if id !in s.table then (s, Err(NotFound))
      else if exists c :: c in s.table && s.table[c] == Some(id) then (s, Err(Conflict))
      else (s.(table := s.table - {id}), Ok(id))
  }

  ghost function Run(s: Store, rs: seq<Request>): Store {
    if rs == [] then s else Apply(Run(s, rs[..|rs| - 1]), rs[|rs| - 1]).0
  }

  // ---------------------------------------------------------------------
  // Every request keeps the forest
  // ---------------------------------------------------------------------

  lemma CreateKeepsForest(t: Table, id: nat, parent: Option<nat>)
    requires IsForest(t) && id !in t && (parent.Some? ==> parent.value in t)
    ensures IsForest(t[id := parent])
  {
    var rank :| RankedBy(t, rank);
    var rank' := rank[id := if parent.Some? then rank[parent.value] + 1 else 0];
    assert RankedBy(t[id := parent], rank');
  }

  lemma DeleteKeepsForest(t: Table, id: nat)
    requires IsForest(t) && forall c | c in t :: t[c] != Some(id)
    ensures IsForest(t - {id})
  {
    var rank :| RankedBy(t, rank);
    assert RankedBy(t - {id}, rank);
  }

  lemma ApplyKeepsGood(s: Store, r: Request)
    requires Good(s)
    ensures Good(Apply(s, r).0)
  {
    var s' := Apply(s, r).0;
    match r
    case Create(input) =>
      if s' != s {
        CreateKeepsForest(s.table, s.next, if input.Given? then Some(input.id) else None);
      }
    case Update(id, input) =>
      if s' != s {
        MoveKeepsForestIff(s.table, id, input.id);
      }
    case Delete(id) =>
      if s' != s {
        DeleteKeepsForest(s.table, id);
      }
  }

  /** Whatever requests are made, one at a time, the categories stay a forest. */
  lemma {:induction false} RunKeepsForest(s: Store, rs: seq<Request>)
    requires Good(s)
    ensures Good(Run(s, rs))
  {
    if rs != [] {
      RunKeepsForest(s, rs[..|rs| - 1]);
      ApplyKeepsGood(Run(s, rs[..|rs| - 1]), rs[|rs| - 1]);
    }
  }

  /**
   The guard refuses no move it need not: a category is moved exactly when the
   new parent exists and the result is a forest.
   */
  lemma MoveAcceptedIff(s: Store, id: nat, p: nat)
    requires Good(s) && id in s.table
    ensures Apply(s, Update(id, Given(p))).1.Ok? <==> p in s.table && IsForest(s.table[id := Some(p)])
  {
    if p in s.table {
      MoveKeepsForestIff(s.table, id, p);
    }
  }

  /** A category is created if and only if the parent it is given exists; it is a new one, and nothing else changes. */
  lemma CreatedIff(s: Store, parent: ParentInput)
    requires Good(s)
    ensures var (s', answer) := Apply(s, Create(parent));
            && (answer.Ok? <==> parent.Given? ==> parent.id in s.table)
            && (answer.Ok? ==>
                  && answer == Ok(s.next) && s.next !in s.table && s'.next > s.next
                  && s'.table.Keys == s.table.Keys + {s.next}
                  && s'.table[s.next] == (if parent.Given? then Some(parent.id) else None)
                  && forall x | x in s.table :: s'.table[x] == s.table[x])
            && (answer.Err? ==> s' == s)
            && (answer == Err(Conflict) <==> parent == Given(0))
            && (answer == Err(BadRequest) <==> parent.Given? && parent.id != 0 && parent.id !in s.table)
  {
  }

  /** An update moves its category under the new parent, or leaves it where it is, and touches no other. */
  lemma UpdatedIff(s: Store, id: nat, parent: ParentInput)
    requires Good(s)
    ensures var (s', answer) := Apply(s, Update(id, parent));
            && (answer == Err(NotFound) <==> id !in s.table)
            && (answer == Err(Conflict) <==> id in s.table && parent == Given(0))
            && (answer.Ok? <==> id in s.table && (parent.Given? ==>
                  && parent.id in s.table && parent.id != id && !Below(s.table, parent.id, id)))
            && (answer.Ok? ==> answer == Ok(id))
            && s'.next == s.next && s'.table.Keys == s.table.Keys
            && (forall x | x in s.table && x != id :: s'.table[x] == s.table[x])
            && (id in s.table ==>
                  s'.table[id] == if answer.Ok? && parent.Given? then Some(parent.id) else s.table[id])
  {
  }

  /** A category goes if and only if it exists and nothing is right below it, and it alone. */
  lemma DeletedIff(s: Store, id: nat)
    requires Good(s)
    ensures var (s', answer) := Apply(s, Delete(id));
            && (answer == Err(NotFound) <==> id !in s.table)
            && (answer.Ok? <==> id in s.table && forall x: nat :: !Below(s.table, x, id))
            && (answer.Ok? ==> answer == Ok(id) && s' == s.(table := s'.table)
                               && s'.table.Keys == s.table.Keys - {id}
                               && forall x | x in s'.table :: s'.table[x] == s.table[x])
            && (answer.Err? ==> s' == s && answer.error in {NotFound, Conflict})
  {
    NothingBelowIff(s.table, id);
  }

  lemma NothingBelowIff(t: Table, id: nat)
    requires Closed(t)
    ensures (forall x: nat :: !Below(t, x, id)) <==> forall c | c in t :: t[c] != Some(id)
  {
    forall c | c in t && t[c] == Some(id)
      ensures Below(t, c, id)
    {
      assert Ancestor(t, id, 0) == Some(id);
      assert Ancestor(t, c, 1) == Some(id);
    }
    forall x: nat | Below(t, x, id)
      ensures exists c :: c in t && t[c] == Some(id)
    {
      var k: nat :| k > 0 && Ancestor(t, x, k) == Some(id);
      AncestorAdd(t, x, k - 1, 1);
      assert Ancestor(t, Ancestor(t, x, k - 1).value, 1) == Some(id);
    }
  }

  // ---------------------------------------------------------------------
  // Guard and write apart
  // ---------------------------------------------------------------------

  datatype Move = Move(id: nat, parent: nat)

  /** `checked` holds the moves that passed the guard and are not written yet. */
  datatype Moving = Moving(table: Table, checked: map<nat, Move>)

  datatype MoveEvent = Check(c: nat, move: Move) | WriteMove(c: nat)

  /** The write itself only needs both rows to exist. */
  ghost function ApplyMove(s: Moving, e: MoveEvent): Moving {
    match e
    case Check(c, move) =>
      if c !in s.checked && move.id in s.table && ParentError(s.table, move.parent, Some(move.id)) == None
      then s.(checked := s.checked[c := move])
      else s
    case WriteMove(c) =>
      if c !in s.checked then s
      else
        var Move(id, parent) := s.checked[c];
        Moving(if id in s.table && parent in s.table then s.table[id := Some(parent)] else s.table, s.checked - {c})
  }

  ghost function RunMoves(s: Moving, es: seq<MoveEvent>): Moving {
    if es == [] then s else ApplyMove(RunMoves(s, es[..|es| - 1]), es[|es| - 1])
  }

  /** A move passes the guard if and only if it would keep the forest if it were written at once. */
  lemma PassesGuardIff(s: Moving, c: nat, move: Move)
    requires IsForest(s.table) && c !in s.checked
    ensures var s' := ApplyMove(s, Check(c, move));
            && (c in s'.checked <==>
                  && move.id in s.table && move.parent in s.table
                  && IsForest(s.table[move.id := Some(move.parent)]))
            && (c in s'.checked ==> s' == s.(checked := s.checked[c := move]))
            && (c !in s'.checked ==> s' == s)
  {
    if move.id in s.table && move.parent in s.table {
      MoveKeepsForestIff(s.table, move.id, move.parent);
    }
  }

  /** What the write would have to check again, at the moment it is made. */
  ghost predicate SafeStep(s: Moving, e: MoveEvent) {
    e.WriteMove? && e.c in s.checked ==>
      var Move(id, parent) := s.checked[e.c];
      id in s.table && parent in s.table ==> parent != id && !Below(s.table, parent, id)
  }

  lemma MoveStepIff(s: Moving, e: MoveEvent)
    requires IsForest(s.table)
    ensures IsForest(ApplyMove(s, e).table) <==> SafeStep(s, e)
  {
    if e.WriteMove? && e.c in s.checked {
      var Move(id, parent) := s.checked[e.c];
      if id in s.table && parent in s.table {
        MoveKeepsForestIff(s.table, id, parent);
      }
    }
  }

  ghost predicate ForestAt(s: Moving, es: seq<MoveEvent>, i: nat)
    requires i <= |es|
  {
    IsForest(RunMoves(s, es[..i]).table)
  }

  ghost predicate SafeAt(s: Moving, es: seq<MoveEvent>, i: nat)
    requires i < |es|
  {
    SafeStep(RunMoves(s, es[..i]), es[i])
  }

  /**
   However guards and writes interleave: it is a forest all along if and only if the guard still holds
   at every write.
   */
  lemma {:induction false} MovesKeepForestIff(s: Moving, es: seq<MoveEvent>)
    requires IsForest(s.table)
    ensures (forall i | 0 <= i <= |es| :: ForestAt(s, es, i)) <==> forall i | 0 <= i < |es| :: SafeAt(s, es, i)
  {
    var n := |es|;
    var holds := (i: nat) => i <= n && ForestAt(s, es, i);
    var keeps := (i: nat) => i < n && SafeAt(s, es, i);
    forall i: nat | i < n && holds(i)
      ensures holds(i + 1) <==> keeps(i)
    {
      assert es[..i + 1][..i] == es[..i];
      MoveStepIff(RunMoves(s, es[..i]), es[i]);
    }
    assert es[..0] == [] && holds(0);
    AllAlongIff(holds, keeps, n);
    assert forall i | 0 <= i <= n :: ForestAt(s, es, i) <==> holds(i);
    assert forall i | 0 <= i < n :: SafeAt(s, es, i) <==> keeps(i);
  }

  const TWO_ROOTS: Table := map[1 := None, 2 := None]
  const RACE: seq<MoveEvent> := [Check(1, Move(1, 2))] + [Check(2, Move(2, 1))] + [WriteMove(1)] + [WriteMove(2)]

  lemma RunMovesLast(s: Moving, es: seq<MoveEvent>, e: MoveEvent)
    ensures RunMoves(s, es + [e]) == ApplyMove(RunMoves(s, es), e)
  {
    assert (es + [e])[..|es|] == es;
  }

  lemma RootsAreFree()
    ensures IsForest(TWO_ROOTS)
    ensures ParentError(TWO_ROOTS, 2, Some(1)) == None && ParentError(TWO_ROOTS, 1, Some(2)) == None
  {
    assert RankedBy(TWO_ROOTS, map[1 := 0, 2 := 0]);
    forall x: nat, a: nat, k: nat | k > 0 && x in TWO_ROOTS
      ensures Ancestor(TWO_ROOTS, x, k) != Some(a)
    {
    }
  }

  lemma TwoCycle()
    ensures !IsForest(map[1 := Some(2), 2 := Some(1)])
  {
    var t: Table := map[1 := Some(2), 2 := Some(1)];
    assert Ancestor(t, 1, 0) == Some(1) && Ancestor(t, 2, 1) == Some(1);
    assert Ancestor(t, 1, 2) == Some(1);
    assert Below(t, 1, 1);
    if IsForest(t) {
      ForestHasNoCycle(t, 1);
    }
  }

  /** Two moves that are both checked before either is written close a cycle. */
  lemma RacingMovesCloseCycle()
    ensures IsForest(TWO_ROOTS) && !IsForest(RunMoves(Moving(TWO_ROOTS, map[]), RACE).table)
  {
    RootsAreFree();
    TwoCycle();
    var s := Moving(TWO_ROOTS, map[]);
    var first, second := Check(1, Move(1, 2)), Check(2, Move(2, 1));
    RunMovesLast(s, [], first);
    assert [] + [first] == [first];
    RunMovesLast(s, [first], second);
    RunMovesLast(s, [first] + [second], WriteMove(1));
    RunMovesLast(s, [first] + [second] + [WriteMove(1)], WriteMove(2));
    var both := Moving(TWO_ROOTS, map[1 := Move(1, 2), 2 := Move(2, 1)]);
    assert ApplyMove(ApplyMove(s, first), second) == both;
    assert ApplyMove(both, WriteMove(1)) == Moving(map[1 := Some(2), 2 := None], map[2 := Move(2, 1)]);
    assert RunMoves(s, RACE).table == map[1 := Some(2), 2 := Some(1)];
  }

  // ---------------------------------------------------------------------
  // The search for descendants
  // ---------------------------------------------------------------------

  /** The rows whose parent is in the frontier, in query order. */
  function NextLevel(rows: seq<Row>, frontier: seq<nat>): seq<nat> {
    if rows == [] then []
    else
      var n := |rows| - 1;
      var r := rows[n];
      NextLevel(rows[..n], frontier)
      + (if r.parent.Some? && r.parent.value != 0 && r.parent.value in frontier then [r.id] else [])
  }

  lemma {:induction false} NextLevelMembers(rows: seq<Row>, frontier: seq<nat>)
    ensures forall x :: x in NextLevel(rows, frontier)
              <==> exists r <- rows :: r.id == x && r.parent.Some? && r.parent.value != 0 && r.parent.value in frontier
  {
    if rows != [] {
      var n := |rows| - 1;
      NextLevelMembers(rows[..n], frontier);
      assert rows == rows[..n] + [rows[n]];
    }
  }

  lemma {:induction false} NextLevelDistinct(rows: seq<Row>, frontier: seq<nat>)
    requires UniqueIds(rows)
    ensures NoRepeats(NextLevel(rows, frontier))
  {
    if rows != [] {
      var n := |rows| - 1;
      NextLevelDistinct(rows[..n], frontier);
      NextLevelMembers(rows[..n], frontier);
      OneMoreDistinct(rows, n, NextLevel(rows[..n], frontier));
    }
  }

  /** The ids `k` steps below `root`. */
  ghost predicate IsLevel(t: Table, root: nat, k: nat, xs: seq<nat>) {
    NoRepeats(xs) && forall x: nat :: x in xs <==> Ancestor(t, x, k) == Some(root)
  }

  /** `x` lies between `lo` and `hi` steps below `root`. */
  ghost predicate Within(t: Table, root: nat, lo: nat, hi: nat, x: nat) {
    exists k: nat :: lo <= k <= hi && Ancestor(t, x, k) == Some(root)
  }

  /** The ids between `lo` and `hi` steps below `root`, each once. */
  ghost predicate IsRange(t: Table, root: nat, lo: nat, hi: nat, xs: seq<nat>) {
    NoRepeats(xs) && forall x: nat :: x in xs <==> Within(t, root, lo, hi, x)
  }

  lemma LevelStep(t: Table, rows: seq<Row>, root: nat, k: nat, frontier: seq<nat>)
    requires IsForest(t) && AllRowsOf(rows, t) && (forall x | x in t :: x > 0)
    requires IsLevel(t, root, k, frontier)
    ensures IsLevel(t, root, k + 1, NextLevel(rows, frontier))
  {
    var next := NextLevel(rows, frontier);
    NextLevelDistinct(rows, frontier);
    NextLevelMembers(rows, frontier);
    forall x: nat
      ensures x in next <==> Ancestor(t, x, k + 1) == Some(root)
    {
      if Ancestor(t, x, k + 1) == Some(root) {
        assert x in t && t[x].Some? && t[x].value in frontier;
        assert t[x].value in t && t[x].value != 0;
        assert Listed(rows, x);
        var r :| r in rows && r.id == x;
      }
    }
  }

  lemma RangeStep(t: Table, root: nat, lo: nat, k: nat, result: seq<nat>, next: seq<nat>)
    requires IsForest(t) && lo <= k + 1
    requires IsRange(t, root, lo, k, result) && IsLevel(t, root, k + 1, next)
    ensures IsRange(t, root, lo, k + 1, result + next)
  {
    forall x: nat
      ensures Within(t, root, lo, k + 1, x) <==> Within(t, root, lo, k, x) || Ancestor(t, x, k + 1) == Some(root)
    {
      if Within(t, root, lo, k + 1, x) {
        var j: nat :| lo <= j <= k + 1 && Ancestor(t, x, j) == Some(root);
        assert j <= k || j == k + 1;
      }
    }
    forall i, j | 0 <= i < |result| && 0 <= j < |next|
      ensures result[i] != next[j]
    {
      var x := result[i];
      assert x in result && next[j] in next;
      var d: nat :| lo <= d <= k && Ancestor(t, x, d) == Some(root);
      MetOnce(t, x, d, k + 1);
    }
  }

  /** Once a level is empty, so is every level further down. */
  lemma {:induction false} EmptyBelowEmpty(t: Table, root: nat, k: nat, x: nat, j: nat)
    requires k <= j && forall y: nat :: Ancestor(t, y, k) != Some(root)
    ensures Ancestor(t, x, j) != Some(root)
  {
    AncestorAdd(t, x, j - k, k);
  }

  lemma RangeBound(t: Table, root: nat, lo: nat, hi: nat, xs: seq<nat>)
    requires Closed(t) && IsRange(t, root, lo, hi, xs)
    ensures |xs| <= |t| + 1
  {
    forall x | x in xs
      ensures x in t.Keys + {root}
    {
      var k: nat :| lo <= k <= hi && Ancestor(t, x, k) == Some(root);
    }
    NoRepeatsBound(xs, t.Keys + {root});
    assert |t.Keys| == |t|;
    if root !in t.Keys {
      assert |t.Keys + {root}| == |t.Keys| + 1;
    } else {
      assert t.Keys + {root} == t.Keys;
    }
  }

  /**
   The frontier loop. It ends, and returns exactly the categories below `root`
   (and `root` itself when asked to), each once.
   */
  method GetDescendantIds(rows: seq<Row>, root: nat, includeSelf: bool, ghost t: Table)
    returns (result: seq<nat>)
    requires IsForest(t) && AllRowsOf(rows, t) && forall x | x in t :: x > 0
    ensures NoRepeats(result)
    ensures forall x: nat :: x in result <==> Below(t, x, root) || (includeSelf && x == root)
  {
    result := if includeSelf then [root] else [];
    var frontier := [root];
    ghost var k: nat := 0;
    ghost var lo: nat := if includeSelf then 0 else 1;
    assert IsLevel(t, root, 0, frontier);
    assert IsRange(t, root, lo, 0, result);
    while |frontier| > 0
      invariant IsLevel(t, root, k, frontier)
      invariant IsRange(t, root, lo, k, result)
      decreases |t| + 1 - |result|, |frontier|
    {
      var children := NextLevel(rows, frontier);
      LevelStep(t, rows, root, k, frontier);
      RangeStep(t, root, lo, k, result, children);
      RangeBound(t, root, lo, k + 1, result + children);
      result := result + children;
      frontier := children;
      k := k + 1;
    }
    forall x: nat
      ensures x in result <==> Below(t, x, root) || (includeSelf && x == root)
    {
      forall j: nat | j >= k
        ensures Ancestor(t, x, j) != Some(root)
      {
        assert forall y: nat :: y !in frontier;
        EmptyBelowEmpty(t, root, k, x, j);
      }
      if x in result {
        var j: nat :| lo <= j <= k && Ancestor(t, x, j) == Some(root);
      }
      if Below(t, x, root) {
        var j: nat :| j > 0 && Ancestor(t, x, j) == Some(root);
      }
      assert Ancestor(t, x, 0) == Some(x);
    }
  }

  // ---------------------------------------------------------------------
  // The table of categories, updated in place
  // ---------------------------------------------------------------------

  function TableOf(rows: seq<Row>): Table {
    if rows == [] then map[]
    else TableOf(rows[..|rows| - 1])[rows[|rows| - 1].id := rows[|rows| - 1].parent]
  }

  lemma {:induction false} TableOfRows(rows: seq<Row>)
    requires UniqueIds(rows)
    ensures AllRowsOf(rows, TableOf(rows))
  {
    if rows != [] {
      var n := |rows| - 1;
      var init, last := rows[..n], rows[n];
      TableOfRows(init);
      var t := TableOf(rows);
      forall r | r in rows
        ensures r.id in t && t[r.id] == r.parent
      {
        var i :| 0 <= i < |rows| && rows[i] == r;
        if i < n { assert init[i] == r; assert r in init; }
      }
      forall x | x in t
        ensures Listed(rows, x)
      {
        if x == last.id {
          assert last in rows;
        } else {
          assert Listed(init, x);
          var r :| r in init && r.id == x;
          assert r in rows;
        }
      }
    }
  }

  /** Two lists of rows that spell the same entries describe the same table. */
  lemma SameTable(rows: seq<Row>, t: Table)
    requires AllRowsOf(rows, t)
    ensures TableOf(rows) == t
  {
    TableOfRows(rows);
    var u := TableOf(rows);
    forall x
      ensures x in u <==> x in t
      ensures x in u ==> u[x] == t[x]
    {
      if x in t {
        var r :| r in rows && r.id == x;
      }
      if x in u {
        assert Listed(rows, x);
        var r :| r in rows && r.id == x;
      }
    }
  }

  class CategoryTable {
    var rows: seq<Row>
    var next: nat

    ghost function State(): Store
      reads this
    {
      Store(TableOf(rows), next)
    }

    ghost predicate Valid()
      reads this
    {
      UniqueIds(rows) && Good(State())
    }

    constructor ()
      ensures Valid() && State() == Store(map[], 1)
    {
      rows, next := [], 1;
      new;
      assert RankedBy(map[], map[]);
    }

    method Exists(id: nat) returns (b: bool)
      requires Valid()
      ensures b <==> id in State().table
    {
      TableOfRows(rows);
      b := exists r <- rows :: r.id == id;
      assert b <==> Listed(rows, id);
    }

    /** assertParentValid: true when the parent may be used. */
    method ParentAllowed(p: nat, self: Option<nat>) returns (ok: bool)
      requires Valid()
      ensures ok <==> ParentError(State().table, p, self) == None
    {
      ok := Exists(p);
      if ok && self.Some? {
        if p == self.value {
          return false;
        }
        TableOfRows(rows);
        var below := GetDescendantIds(rows, self.value, false, TableOf(rows));
        ok := p !in below;
      }
    }

    method AddRow(row: Row)
      requires UniqueIds(rows) && row.id == next && forall x | x in TableOf(rows) :: x < next
      modifies this
      ensures UniqueIds(rows) && State() == Store(old(State()).table[row.id := row.parent], old(next) + 1)
    {
      TableOfRows(rows);
      assert forall q <- rows :: q.id < next;
      assert (rows + [row])[..|rows|] == rows;
      rows := rows + [row];
      next := next + 1;
    }

    method CreateCategory(parent: ParentInput) returns (r: Result<nat>)
      requires Valid()
      modifies this
      ensures Valid() && (State(), r) == Apply(old(State()), Create(parent))
    {
      ghost var s := State();
      ApplyKeepsGood(s, Create(parent));
      if parent.Given? && parent.id != 0 {
        var ok := ParentAllowed(parent.id, None);
        if !ok {
          return Err(BadRequest);
        }
      }
      if parent == Given(0) {
        return Err(Conflict);
      }
      r := Ok(next);
      AddRow(Row(next, if parent.Given? then Some(parent.id) else None));
    }

    method UpdateCategory(id: nat, parent: ParentInput) returns (r: Result<nat>)
      requires Valid()
      modifies this
      ensures Valid() && (State(), r) == Apply(old(State()), Update(id, parent))
    {
      ghost var s := State();
      ApplyKeepsGood(s, Update(id, parent));
      var found := Exists(id);
      if !found {
        return Err(NotFound);
      }
      if parent.Given? && parent.id != 0 {
        var ok := ParentAllowed(parent.id, Some(id));
        if !ok {
          return Err(BadRequest);
        }
      }
      if parent == Given(0) {
        return Err(Conflict);
      }
      if parent.Given? {
        TableOfRows(rows);
        var i :| 0 <= i < |rows| && rows[i].id == id;
        ghost var was := rows;
        rows := rows[i := Row(id, Some(parent.id))];
        ReplacedRow(was, i, Some(parent.id));
      }
      r := Ok(id);
    }

    method DeleteCategory(id: nat) returns (r: Result<nat>)
      requires Valid()
      modifies this
      ensures Valid() && (State(), r) == Apply(old(State()), Delete(id))
    {
      ghost var s := State();
      ApplyKeepsGood(s, Delete(id));
      var found := Exists(id);
      if !found {
        return Err(NotFound);
      }
      TableOfRows(rows);
      var children := ChildrenOf(rows, Some(id));
      ChildrenMembers(rows, Some(id));
      if |children| > 0 {
        assert children[0] in children;
        return Err(Conflict);
      }
      HasNoChild(rows, s.table, id);
      var i :| 0 <= i < |rows| && rows[i].id == id;
      RemovedAt(rows, i);
      rows := rows[..i] + rows[i + 1..];
      r := Ok(id);
    }
  }

  lemma HasNoChild(rows: seq<Row>, t: Table, id: nat)
    requires AllRowsOf(rows, t) && ChildrenOf(rows, Some(id)) == []
    ensures forall c | c in t :: t[c] != Some(id)
  {
    forall c | c in t
      ensures t[c] != Some(id)
    {
      ListedChild(t, rows, c, Some(id));
    }
  }

  lemma ReplacedRow(rows: seq<Row>, i: nat, parent: Option<nat>)
    requires UniqueIds(rows) && i < |rows|
    ensures var rows' := rows[i := Row(rows[i].id, parent)];
            UniqueIds(rows') && TableOf(rows') == TableOf(rows)[rows[i].id := parent]
  {
    var rows' := rows[i := Row(rows[i].id, parent)];
    var t := TableOf(rows)[rows[i].id := parent];
    TableOfRows(rows);
    forall r | r in rows'
      ensures r.id in t && t[r.id] == r.parent
    {
      var j :| 0 <= j < |rows'| && rows'[j] == r;
      if j != i { assert rows[j] == r && r in rows; }
    }
    forall x | x in t
      ensures Listed(rows', x)
    {
      var r :| r in rows && r.id == x;
      var j :| 0 <= j < |rows| && rows[j] == r;
      assert rows'[j].id == x && rows'[j] in rows';
    }
    SameTable(rows', t);
  }

  lemma RemovedRow(a: seq<Row>, row: Row, b: seq<Row>)
    requires UniqueIds(a + [row] + b)
    ensures UniqueIds(a + b) && TableOf(a + b) == TableOf(a + [row] + b) - {row.id}
  {
    var rows, rows' := a + [row] + b, a + b;
    var t := TableOf(rows) - {row.id};
    TableOfRows(rows);
    RemovedUnique(a, row, b);
    assert forall r :: r in rows <==> r in rows' || r == row;
    forall x | x in t
      ensures Listed(rows', x)
    {
      assert Listed(rows, x);
      var r :| r in rows && r.id == x;
      assert r in rows';
    }
    SameTable(rows', t);
  }

  lemma RemovedAt(rows: seq<Row>, i: nat)
    requires UniqueIds(rows) && i < |rows|
    ensures var rows' := rows[..i] + rows[i + 1..];
            UniqueIds(rows') && TableOf(rows') == TableOf(rows) - {rows[i].id}
  {
    assert rows == rows[..i] + [rows[i]] + rows[i + 1..];
    RemovedRow(rows[..i], rows[i], rows[i + 1..]);
  }

  lemma RemovedUnique(a: seq<Row>, row: Row, b: seq<Row>)
    requires UniqueIds(a + [row] + b)
    ensures UniqueIds(a + b) && forall r <- a + b :: r.id != row.id
  {
    var rows, rows' := a + [row] + b, a + b;
    assert rows[|a|] == row;
    forall i | 0 <= i < |rows'|
      ensures rows'[i] == rows[if i < |a| then i else i + 1] && rows'[i].id != row.id
    {
    }
  }
}
