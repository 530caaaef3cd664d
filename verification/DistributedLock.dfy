/**
 The Redis lock around background jobs: SET NX PX with a fresh owner token, the
 job, then a script that deletes the key only while it still holds that token.
 Time, acquisitions, job ends and releases interleave in any order. A key set at
 `t` for `ttl` is still there at `t + ttl` and gone after.
 */
module DistributedLock {
  import opened Options

  datatype Entry = Entry(token: nat, until: nat)

  /** One run of a job that got the lock; `running` until the job returns or throws. */
  datatype Hold = Hold(acquired: nat, ttl: nat, running: bool) {
    function Until(): nat { acquired + ttl }
  }

  /** Tokens are handed out in order, so a later holder has the larger token. */
  datatype State = State(now: nat, entry: Option<Entry>, holds: map<nat, Hold>, nextToken: nat)

  datatype Event =
    | Tick(ms: nat)
    | Acquire(ttl: nat)
    | JobEnds(token: nat)
    | Release(token: nat)
    | ReleaseLost(token: nat)

  const INIT := State(0, None, map[], 0)

  predicate Taken(s: State) {
    s.entry.Some? && s.now <= s.entry.value.until
  }

  function Apply(s: State, e: Event): State {
    match e
    case Tick(ms) => s.(now := s.now + ms)
    case Acquire(ttl) =>
      var token := s.nextToken;
      if Taken(s) then s.(nextToken := token + 1)
      else State(s.now, Some(Entry(token, s.now + ttl)), s.holds[token := Hold(s.now, ttl, true)], token + 1)
    case JobEnds(token) =>
      if token in s.holds then s.(holds := s.holds[token := s.holds[token].(running := false)]) else s
    case Release(token) =>
      if token in s.holds && !s.holds[token].running then
        s.(holds := s.holds - {token},
           entry := if Taken(s) && s.entry.value.token == token then None else s.entry)
      else s
    case ReleaseLost(token) =>
      if token in s.holds && !s.holds[token].running then s.(holds := s.holds - {token}) else s
  }

  function Run(s: State, es: seq<Event>): State {
    if es == [] then s else Apply(Run(s, es[..|es| - 1]), es[|es| - 1])
  }

  // ---------------------------------------------------------------------
  // The invariant
  // ---------------------------------------------------------------------

  ghost predicate Inv(s: State) {
    && (s.entry.Some? ==> s.entry.value.token < s.nextToken)
    && (forall t | t in s.holds :: t < s.nextToken && s.holds[t].acquired <= s.now)
    // a holder within its time still owns the key
    && (forall t | t in s.holds && s.now < s.holds[t].Until() :: s.entry == Some(Entry(t, s.holds[t].Until())))
    // of two holders, the later one came after the earlier one's time was up
    && (forall t, u | t in s.holds && u in s.holds && t < u :: s.holds[t].Until() <= s.holds[u].acquired)
  }

  lemma ApplyKeepsInv(s: State, e: Event)
    requires Inv(s)
    ensures Inv(Apply(s, e))
  {
  }

  lemma {:induction false} RunInv(es: seq<Event>)
    ensures Inv(Run(INIT, es))
  {
    if es != [] {
      RunInv(es[..|es| - 1]);
      ApplyKeepsInv(Run(INIT, es[..|es| - 1]), es[|es| - 1]);
    }
  }

  // ---------------------------------------------------------------------
  // Safety over all runs
  // ---------------------------------------------------------------------

  /** At most one job still within its time is running. */
  lemma MutualExclusion(es: seq<Event>, t: nat, u: nat)
    requires var s := Run(INIT, es);
             && t in s.holds && s.now < s.holds[t].Until()
             && u in s.holds && s.now < s.holds[u].Until()
    ensures t == u
  {
    RunInv(es);
  }

  /** Two jobs overlap only when the earlier one had overrun before the later one started. */
  lemma OverlapMeansOverrun(es: seq<Event>, t: nat, u: nat)
    requires var s := Run(INIT, es); t in s.holds && u in s.holds && t < u
    ensures var s := Run(INIT, es); s.holds[t].Until() <= s.holds[u].acquired <= s.now
  {
    RunInv(es);
  }

  ghost predicate InTime(s: State) {
    forall t | t in s.holds && s.holds[t].running :: s.now < s.holds[t].Until()
  }

  /** If every job finishes within its time, no two jobs ever run at once. */
  lemma JobsInTimeNeverOverlap(es: seq<Event>, t: nat, u: nat)
    requires var s := Run(INIT, es);
             InTime(s) && t in s.holds && s.holds[t].running && u in s.holds && s.holds[u].running
    ensures t == u
  {
    MutualExclusion(es, t, u);
  }

  /** Without that, two jobs do overlap: a job of 10 units under a lock of 5. */
  lemma OverrunningJobsOverlap()
    ensures var s := Run(INIT, [Acquire(5), Tick(10), Acquire(5)]);
            0 in s.holds && s.holds[0].running && 1 in s.holds && s.holds[1].running
  {
    var a, b, c := [Acquire(5)], [Acquire(5), Tick(10)], [Acquire(5), Tick(10), Acquire(5)];
    assert a[..0] == [] && b[..1] == a && c[..2] == b;
    assert Run(INIT, a) == Apply(INIT, Acquire(5));
    assert Run(INIT, b) == Apply(Run(INIT, a), Tick(10));
  }

  /** A release never takes the key away from another holder that is within its time. */
  lemma ReleaseSparesOthers(es: seq<Event>, t: nat, u: nat)
    requires var s := Run(INIT, es); u in s.holds && s.now < s.holds[u].Until() && t != u
    ensures var s := Run(INIT, es); var s' := Apply(s, Release(t));
            s'.entry == s.entry == Some(Entry(u, s.holds[u].Until()))
  {
    RunInv(es);
  }

  /** A job that ended in time frees the lock at once; the next attempt then succeeds. */
  lemma ReleaseFreesOwnLock(es: seq<Event>, t: nat, ttl: nat)
    requires var s := Run(INIT, es); t in s.holds && !s.holds[t].running && s.now < s.holds[t].Until()
    ensures var s := Run(INIT, es); var s' := Apply(s, Release(t));
            !Taken(s') && s.nextToken in Apply(s', Acquire(ttl)).holds
  {
    RunInv(es);
  }

  /** While a job runs within its time, nothing that happens takes its lock or ends it but its own end. */
  lemma RunningJobKeepsLock(es: seq<Event>, e: Event, t: nat)
    requires var s := Run(INIT, es);
             t in s.holds && s.holds[t].running && Apply(s, e).now < s.holds[t].Until()
    ensures var s := Run(INIT, es); var s' := Apply(s, e);
            && t in s'.holds && s'.holds[t] == s.holds[t].(running := e != JobEnds(t))
            && s'.entry == Some(Entry(t, s.holds[t].Until()))
  {
    RunInv(es);
  }

  /** A whole job under a free lock, done within its time: it gets the lock, holds it and leaves it free. */
  lemma WholeJob(es: seq<Event>, ttl: nat, ms: nat)
    requires !Taken(Run(INIT, es)) && ms < ttl
    ensures var s := Run(INIT, es); var t := s.nextToken;
            var working := Apply(Apply(s, Acquire(ttl)), Tick(ms));
            var done := Apply(Apply(working, JobEnds(t)), Release(t));
            && t !in s.holds && t in working.holds && working.holds[t] == Hold(s.now, ttl, true) && Taken(working)
            && done.holds == s.holds && done.now == s.now + ms && !Taken(done)
  {
    RunInv(es);
    var s := Run(INIT, es);
    assert s.holds[s.nextToken := Hold(s.now, ttl, false)] - {s.nextToken} == s.holds;
  }

  /** A release that never reaches Redis leaves the key to expire: it is taken up to its last instant and then free. */
  lemma LostReleaseExpires(es: seq<Event>, t: nat, ms: nat)
    requires var s := Run(INIT, es); t in s.holds && !s.holds[t].running && s.now < s.holds[t].Until()
    ensures var s := Run(INIT, es); var left := Apply(s, ReleaseLost(t));
            && t !in left.holds
            && (Taken(Apply(left, Tick(ms))) <==> s.now + ms <= s.holds[t].Until())
  {
    RunInv(es);
  }

  // ---------------------------------------------------------------------
  // The key and the holders, updated in place
  // ---------------------------------------------------------------------

  class Lock {
    var now: nat
    var entry: Option<Entry>
    var holds: map<nat, Hold>
    var nextToken: nat

    ghost function View(): State
      reads this
    {
      State(now, entry, holds, nextToken)
    }

    constructor ()
      ensures View() == INIT
    {
      now, entry, holds, nextToken := 0, None, map[], 0;
    }

    /** SET key token PX ttl NX. */
    method SetNx(token: nat, ttl: nat) returns (acquired: bool)
      modifies `entry
      ensures acquired <==> !old(Taken(View()))
      ensures entry == if acquired then Some(Entry(token, now + ttl)) else old(entry)
    {
      acquired := entry.None? || entry.value.until < now;
      if acquired {
        entry := Some(Entry(token, now + ttl));
      }
    }

    /** The release script. */
    method DeleteIfOwner(token: nat)
      modifies `entry
      ensures entry == if old(Taken(View()) && entry.value.token == token) then None else old(entry)
    {
      if entry.Some? && now <= entry.value.until && entry.value.token == token {
        entry := None;
      }
    }

    method BeginWithLock(ttl: nat) returns (acquired: bool)
      modifies this
      ensures View() == Apply(old(View()), Acquire(ttl))
      ensures acquired <==> !old(Taken(View()))
    {
      var token := nextToken;
      nextToken := nextToken + 1;
      acquired := SetNx(token, ttl);
      if acquired {
        holds := holds[token := Hold(now, ttl, true)];
      }
    }

    method EndWithLock(token: nat)
      requires token in holds && !holds[token].running
      modifies this
      ensures View() == Apply(old(View()), Release(token))
    {
      DeleteIfOwner(token);
      holds := holds - {token};
    }
  }
}
