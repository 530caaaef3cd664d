/** The step from single steps to whole runs, used wherever a property is kept exactly under a condition. */
module Along {
  lemma {:induction false} HoldsUpTo(holds: nat -> bool, keeps: nat -> bool, n: nat)
    requires holds(0) && forall i: nat | i < n && holds(i) :: holds(i + 1) <==> keeps(i)
    requires forall i: nat | i < n :: keeps(i)
    ensures holds(n)
  {
    if n > 0 {
      HoldsUpTo(holds, keeps, n - 1);
    }
  }

  /** If each step keeps a property exactly when it meets a condition, it holds all along iff every step meets it. */
  lemma AllAlongIff(holds: nat -> bool, keeps: nat -> bool, n: nat)
    requires holds(0) && forall i: nat | i < n && holds(i) :: holds(i + 1) <==> keeps(i)
    ensures (forall i: nat | i <= n :: holds(i)) <==> forall i: nat | i < n :: keeps(i)
  {
    if forall i: nat | i < n :: keeps(i) {
      forall i: nat | i <= n
        ensures holds(i)
      {
        HoldsUpTo(holds, keeps, i);
      }
    }
    if forall i: nat | i <= n :: holds(i) {
      forall i: nat | i < n
        ensures keeps(i)
      {
        assert holds(i) && holds(i + 1);
      }
    }
  }
}
