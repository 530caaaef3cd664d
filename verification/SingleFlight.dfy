/**
 The single-flight cache. `wrap` is cut at its awaits: a call asks Redis, resumes
 with the answer, and then either returns it, joins the load in flight for the
 key, or starts one. Every event below is one uninterrupted stretch of the
 program or one action of Redis; a run is any sequence of events.
 */
module SingleFlight {
  import opened Options

  type Key = string
  type Value = string

  /** One shared promise. A loader that throws synchronously, instead of
   returning a promise, leaves it stillborn. */
  datatype Phase =
    | Loading
    | Storing(value: Value)
    | Stored(value: Value)
    | Done(value: Value)
    | Failed
    | Stillborn

  datatype Flight = Flight(key: Key, phase: Phase) {
    predicate Active() { phase.Loading? || phase.Storing? || phase.Stored? }
  }

  datatype Call =
    | Asked(key: Key)
    | Answered(key: Key, cached: Option<Value>)
    | Waiting(key: Key, flight: nat)
    | Returned(key: Key, value: Value, from: Option<nat>)
    | Rejected(key: Key, flight: nat)

  /** `loaded` records, for the theorems only, every value a loader ever produced. */
  datatype State = State(
    redis: map<Key, Value>,
    inFlight: map<Key, nat>,
    flights: seq<Flight>,
    calls: map<nat, Call>,
    loaded: set<(Key, Value)>)

  datatype Event =
    | Ask(c: nat, key: Key)
    | Answer(c: nat)
    | Resume(c: nat, throwsAtOnce: bool)
    | LoaderSettles(p: nat, outcome: Option<Value>)
    | RedisWrites(p: nat)
    | StoreSettles(p: nat, ok: bool)
    | Deliver(c: nat)
    | Drop(key: Key)

  const INIT := State(map[], map[], [], map[], {})

  function SetPhase(s: State, p: nat, phase: Phase): State
    requires p < |s.flights|
  {
    s.(flights := s.flights[p := s.flights[p].(phase := phase)])
  }

  function Start(s: State, c: nat, key: Key, throwsAtOnce: bool): State {
    var p := |s.flights|;
    s.(flights := s.flights + [Flight(key, if throwsAtOnce then Stillborn else Loading)],
       inFlight := s.inFlight[key := p],
       calls := s.calls[c := Waiting(key, p)])
  }

  function Settle(s: State, p: nat, phase: Phase): State
    requires p < |s.flights|
  {
    SetPhase(s, p, phase).(inFlight := s.inFlight - {s.flights[p].key})
  }

  /** An event that is not possible in a state leaves it as it is. */
  function Apply(s: State, e: Event): State {
    match e
    case Ask(c, key) => if c in s.calls then s else s.(calls := s.calls[c := Asked(key)])
    case Answer(c) =>
      if c in s.calls && s.calls[c].Asked? then
        var key := s.calls[c].key;
        s.(calls := s.calls[c := Answered(key, if key in s.redis then Some(s.redis[key]) else None)])
      else s
    case Resume(c, throwsAtOnce) =>
      if c in s.calls && s.calls[c].Answered? then
        var key := s.calls[c].key;
        match s.calls[c].cached
        case Some(v) => s.(calls := s.calls[c := Returned(key, v, None)])
        case None =>
          if key in s.inFlight then s.(calls := s.calls[c := Waiting(key, s.inFlight[key])])
          else Start(s, c, key, throwsAtOnce)
      else s
    case LoaderSettles(p, outcome) =>
      if p < |s.flights| && s.flights[p].phase.Loading? then
        match outcome
        case None => Settle(s, p, Failed)
        case Some(v) => SetPhase(s, p, Storing(v)).(loaded := s.loaded + {(s.flights[p].key, v)})
      else s
    case RedisWrites(p) =>
      if p < |s.flights| && s.flights[p].phase.Storing? then
        var v := s.flights[p].phase.value;
        SetPhase(s, p, Stored(v)).(redis := s.redis[s.flights[p].key := v])
      else s
    case StoreSettles(p, ok) =>
      if p < |s.flights| && s.flights[p].phase.Stored? && ok then Settle(s, p, Done(s.flights[p].phase.value))
      else if p < |s.flights| && (s.flights[p].phase.Stored? || s.flights[p].phase.Storing?) && !ok
          then Settle(s, p, Failed)
      else s
    case Deliver(c) =>
      if c in s.calls && s.calls[c].Waiting? && s.calls[c].flight < |s.flights| then
        var Waiting(key, p) := s.calls[c];
        match s.flights[p].phase
        case Done(v) => s.(calls := s.calls[c := Returned(key, v, Some(p))])
        case Failed => s.(calls := s.calls[c := Rejected(key, p)])
        case Stillborn => s.(calls := s.calls[c := Rejected(key, p)])
        case _ => s
      else s
    case Drop(key) => s.(redis := s.redis - {key})
  }

  function Run(s: State, es: seq<Event>): State {
    if es == [] then s else Apply(Run(s, es[..|es| - 1]), es[|es| - 1])
  }

  // ---------------------------------------------------------------------
  // The invariant
  // ---------------------------------------------------------------------

  /** The map of loads in flight and the promises describe each other. */
  ghost predicate MapMatches(s: State) {
    && (forall k | k in s.inFlight ::
          && s.inFlight[k] < |s.flights|
          && s.flights[s.inFlight[k]].key == k
          && (s.flights[s.inFlight[k]].Active() || s.flights[s.inFlight[k]].phase.Stillborn?))
    && (forall p | 0 <= p < |s.flights| && (s.flights[p].Active() || s.flights[p].phase.Stillborn?) ::
          s.flights[p].key in s.inFlight && s.inFlight[s.flights[p].key] == p)
  }

  predicate IsFailure(phase: Phase) { phase.Failed? || phase.Stillborn? }

  /** A joined load is one of the same key; what was returned is what it loaded, and what was rejected failed. */
  ghost predicate CallMatches(s: State, call: Call) {
    match call
    case Asked(_) => true
    case Answered(key, cached) => cached.Some? ==> (key, cached.value) in s.loaded
    case Waiting(key, p) => p < |s.flights| && s.flights[p].key == key
    case Returned(key, v, from) =>
      && (key, v) in s.loaded
      && (from.Some? ==> from.value < |s.flights| && s.flights[from.value] == Flight(key, Done(v)))
    case Rejected(key, p) => p < |s.flights| && s.flights[p].key == key && IsFailure(s.flights[p].phase)
  }

  ghost predicate CallsMatch(s: State) {
    forall c | c in s.calls :: CallMatches(s, s.calls[c])
  }

  /** No value is ever stored under a key that no loader of that key produced. */
  ghost predicate ValuesLoaded(s: State) {
    && (forall k | k in s.redis :: (k, s.redis[k]) in s.loaded)
    && (forall p | 0 <= p < |s.flights|
                   && (s.flights[p].phase.Storing? || s.flights[p].phase.Stored? || s.flights[p].phase.Done?) ::
          (s.flights[p].key, s.flights[p].phase.value) in s.loaded)
  }

  ghost predicate Inv(s: State) {
    MapMatches(s) && CallsMatch(s) && ValuesLoaded(s)
  }

  lemma CallChangeKeepsInv(s: State, c: nat, call: Call)
    requires Inv(s) && CallMatches(s, call)
    ensures Inv(s.(calls := s.calls[c := call]))
  {
    var s' := s.(calls := s.calls[c := call]);
    forall d | d in s'.calls
      ensures CallMatches(s', s'.calls[d])
    {
      assert d != c ==> CallMatches(s, s.calls[d]);
    }
  }

  lemma StartKeepsInv(s: State, c: nat, key: Key, throwsAtOnce: bool)
    requires Inv(s) && key !in s.inFlight
    ensures Inv(Start(s, c, key, throwsAtOnce))
  {
    var s' := Start(s, c, key, throwsAtOnce);
    assert forall p | 0 <= p < |s.flights| :: s'.flights[p] == s.flights[p];
    assert s'.flights[|s.flights|].key == key;
  }

  lemma SetPhaseKeepsInv(s: State, p: nat, v: Value)
    requires Inv(s) && p < |s.flights|
    requires s.flights[p].phase == Loading
    ensures Inv(SetPhase(s, p, Storing(v)).(loaded := s.loaded + {(s.flights[p].key, v)}))
  {
    var s' := SetPhase(s, p, Storing(v)).(loaded := s.loaded + {(s.flights[p].key, v)});
    assert forall q | 0 <= q < |s.flights| && q != p :: s'.flights[q] == s.flights[q];
  }

  lemma WriteKeepsInv(s: State, p: nat)
    requires Inv(s) && p < |s.flights| && s.flights[p].phase.Storing?
    ensures Inv(Apply(s, RedisWrites(p)))
  {
    var s' := Apply(s, RedisWrites(p));
    assert forall q | 0 <= q < |s.flights| && q != p :: s'.flights[q] == s.flights[q];
  }

  lemma SettleKeepsInv(s: State, p: nat, phase: Phase)
    requires Inv(s) && p < |s.flights| && s.flights[p].Active()
    requires phase == Failed || (s.flights[p].phase.Stored? && phase == Done(s.flights[p].phase.value))
    ensures Inv(Settle(s, p, phase))
  {
    var s' := Settle(s, p, phase);
    assert forall q | 0 <= q < |s.flights| && q != p :: s'.flights[q] == s.flights[q];
    assert s.inFlight[s.flights[p].key] == p;
  }

  lemma ApplyKeepsInv(s: State, e: Event)
    requires Inv(s)
    ensures Inv(Apply(s, e))
  {
    var s' := Apply(s, e);
    if s' != s {
      match e
      case Ask(c, key) => CallChangeKeepsInv(s, c, Asked(key));
      case Answer(c) => CallChangeKeepsInv(s, c, s'.calls[c]);
      case Resume(c, throwsAtOnce) => ResumeKeepsInv(s, c, throwsAtOnce);
      case LoaderSettles(p, outcome) =>
        if outcome.None? { SettleKeepsInv(s, p, Failed); } else { SetPhaseKeepsInv(s, p, outcome.value); }
      case RedisWrites(p) => WriteKeepsInv(s, p);
      case StoreSettles(p, ok) => SettleKeepsInv(s, p, if ok then Done(s.flights[p].phase.value) else Failed);
      case Deliver(c) => DeliverKeepsInv(s, c);
      case Drop(key) => DropKeepsInv(s, key);
    }
  }

  lemma ResumeKeepsInv(s: State, c: nat, throwsAtOnce: bool)
    requires Inv(s) && c in s.calls && s.calls[c].Answered?
    ensures Inv(Apply(s, Resume(c, throwsAtOnce)))
  {
    assert CallMatches(s, s.calls[c]);
    var Answered(key, cached) := s.calls[c];
    if cached.Some? {
      CallChangeKeepsInv(s, c, Returned(key, cached.value, None));
    } else if key in s.inFlight {
      CallChangeKeepsInv(s, c, Waiting(key, s.inFlight[key]));
    } else {
      StartKeepsInv(s, c, key, throwsAtOnce);
    }
  }

  lemma DeliverKeepsInv(s: State, c: nat)
    requires Inv(s) && Apply(s, Deliver(c)) != s
    ensures Inv(Apply(s, Deliver(c)))
  {
    assert CallMatches(s, s.calls[c]);
    CallChangeKeepsInv(s, c, Apply(s, Deliver(c)).calls[c]);
  }

  lemma DropKeepsInv(s: State, key: Key)
    requires Inv(s)
    ensures Inv(s.(redis := s.redis - {key}))
  {
    var s' := s.(redis := s.redis - {key});
    assert forall c | c in s'.calls :: CallMatches(s, s'.calls[c]) ==> CallMatches(s', s'.calls[c]);
  }

  lemma {:induction false} RunInv(es: seq<Event>)
    ensures Inv(Run(INIT, es))
  {
    if es != [] {
      RunInv(es[..|es| - 1]);
      ApplyKeepsInv(Run(INIT, es[..|es| - 1]), es[|es| - 1]);
    }
  }

  // ---------------------------------------------------------------------
  // What callers may rely on, in every run
  // ---------------------------------------------------------------------

  /** At most one loader per key is at work, however the calls interleave. */
  lemma {:induction false} OneLoaderPerKey(es: seq<Event>, p: nat, q: nat)
    requires var s := Run(INIT, es);
             && p < |s.flights| && q < |s.flights| && s.flights[p].key == s.flights[q].key
             && s.flights[p].Active() && s.flights[q].Active()
    ensures p == q
  {
    RunInv(es);
  }

  /** A call that joined a load returns that load's own value; every call returns a value loaded for its key. */
  lemma {:induction false} CallersGetLoadedValues(es: seq<Event>, c: nat)
    requires c in Run(INIT, es).calls && Run(INIT, es).calls[c].Returned?
    ensures var s := Run(INIT, es); var r := s.calls[c];
            && (r.key, r.value) in s.loaded
            && (r.from.Some? ==> r.from.value < |s.flights| && s.flights[r.from.value] == Flight(r.key, Done(r.value)))
  {
    RunInv(es);
    var s := Run(INIT, es);
    assert CallMatches(s, s.calls[c]);
  }

  /** A call is rejected only when the load it waited for failed. */
  lemma {:induction false} RejectedMeansFailed(es: seq<Event>, c: nat)
    requires c in Run(INIT, es).calls && Run(INIT, es).calls[c].Rejected?
    ensures var s := Run(INIT, es); var r := s.calls[c];
            r.flight < |s.flights| && s.flights[r.flight].key == r.key && IsFailure(s.flights[r.flight].phase)
  {
    RunInv(es);
    var s := Run(INIT, es);
    assert CallMatches(s, s.calls[c]);
  }

  /** How a call ends once it is delivered: with the value its load ended with, or rejected when it failed. */
  lemma {:induction false} DeliveredAsLoaded(es: seq<Event>, c: nat)
    requires c in Run(INIT, es).calls && Run(INIT, es).calls[c].Waiting?
    ensures var s := Run(INIT, es); var Waiting(key, p) := s.calls[c]; var s' := Apply(s, Deliver(c));
            && p < |s.flights| && s.flights[p].key == key && c in s'.calls
            && (forall v :: s'.calls[c] == Returned(key, v, Some(p)) <==> s.flights[p].phase == Done(v))
            && (s'.calls[c] == Rejected(key, p) <==> IsFailure(s.flights[p].phase))
            && (s'.calls[c] == s.calls[c] <==> s.flights[p].Active())
            && s' == s.(calls := s'.calls) && s'.calls == s.calls[c := s'.calls[c]]
  {
    RunInv(es);
    var s := Run(INIT, es);
    assert CallMatches(s, s.calls[c]);
    assert s.calls == s.calls[c := s.calls[c]];
  }

  /** What Redis holds is returned to whoever asks for it, without a loader. */
  lemma CachedIsReturned(s: State, c: nat, key: Key, throwsAtOnce: bool)
    requires c !in s.calls && key in s.redis
    ensures Apply(Apply(Apply(s, Ask(c, key)), Answer(c)), Resume(c, throwsAtOnce))
         == s.(calls := s.calls[c := Returned(key, s.redis[key], None)])
  {
    var asked := Apply(s, Ask(c, key));
    var answered := Apply(asked, Answer(c));
    assert answered.calls == s.calls[c := Answered(key, Some(s.redis[key]))];
    assert Apply(answered, Resume(c, throwsAtOnce)).calls == s.calls[c := Returned(key, s.redis[key], None)];
  }

  /** A call that misses joins the load in flight for its key if there is one, and starts one only if there is none. */
  lemma {:induction false} MissJoinsOrStarts(es: seq<Event>, c: nat, throwsAtOnce: bool)
    requires var s := Run(INIT, es); c in s.calls && s.calls[c].Answered? && s.calls[c].cached.None?
    ensures var s := Run(INIT, es); var s' := Apply(s, Resume(c, throwsAtOnce)); var key := s.calls[c].key;
            && c in s'.calls && s'.calls[c].Waiting? && s'.calls[c].key == key && s'.redis == s.redis
            && (forall p | 0 <= p < |s.flights| && s.flights[p].key == key && s.flights[p].Active() ::
                  s'.calls[c].flight == p && s'.flights == s.flights)
            && ((forall p | 0 <= p < |s.flights| && s.flights[p].key == key :: IsSettled(s.flights[p].phase)) ==>
                  && s'.calls[c].flight == |s.flights|
                  && s'.flights == s.flights + [Flight(key, if throwsAtOnce then Stillborn else Loading)])
  {
    RunInv(es);
    var s := Run(INIT, es);
    assert CallMatches(s, s.calls[c]);
  }

  predicate IsSettled(phase: Phase) { phase.Done? || phase.Failed? }

  /** From here on the load of flight `p`, its write and the call `c` succeed. */
  function Smooth(p: nat, v: Value, c: nat): seq<Event> {
    [] + [LoaderSettles(p, Some(v))] + [RedisWrites(p)] + [StoreSettles(p, true)] + [Deliver(c)]
  }

  lemma {:induction false} RunFour(s: State, a: Event, b: Event, c: Event, d: Event)
    ensures Run(s, [] + [a] + [b] + [c] + [d]) == Apply(Apply(Apply(Apply(s, a), b), c), d)
  {
    RunLast(s, [], a);
    RunLast(s, [] + [a], b);
    RunLast(s, [] + [a] + [b], c);
    RunLast(s, [] + [a] + [b] + [c], d);
  }

  lemma RunLast(s: State, es: seq<Event>, e: Event)
    ensures Run(s, es + [e]) == Apply(Run(s, es), e)
  {
    assert (es + [e])[..|es|] == es;
  }

  /** Every call that waits for a load can still get whatever its loader yields, and Redis then holds it. */
  lemma WaiterGetsTheLoad(es: seq<Event>, c: nat, v: Value)
    requires var s := Run(INIT, es);
             && c in s.calls && s.calls[c].Waiting? && s.calls[c].flight < |s.flights|
             && s.flights[s.calls[c].flight].phase.Loading?
    ensures var s := Run(INIT, es); var Waiting(key, p) := s.calls[c]; var t := Run(s, Smooth(p, v, c));
            && t.calls == s.calls[c := Returned(key, v, Some(p))]
            && t.redis == s.redis[key := v] && t.inFlight == s.inFlight - {key}
            && |t.flights| == |s.flights| && t.flights[p] == Flight(key, Done(v))
  {
    RunInv(es);
    var s := Run(INIT, es);
    assert CallMatches(s, s.calls[c]);
    var p := s.calls[c].flight;
    RunFour(s, LoaderSettles(p, Some(v)), RedisWrites(p), StoreSettles(p, true), Deliver(c));
    var loaded := Apply(s, LoaderSettles(p, Some(v)));
    var written := Apply(loaded, RedisWrites(p));
    assert loaded.flights[p] == Flight(s.flights[p].key, Storing(v));
    assert written.flights[p] == Flight(s.flights[p].key, Stored(v));
  }

  /** What a call ended with is final, and until then it keeps to its key and its load. */
  lemma EndedCallsStay(s: State, e: Event, c: nat)
    requires c in s.calls
    ensures c in Apply(s, e).calls && Apply(s, e).calls[c].key == s.calls[c].key
    ensures s.calls[c].Returned? || s.calls[c].Rejected? ==> Apply(s, e).calls[c] == s.calls[c]
    ensures s.calls[c].Waiting? && Apply(s, e).calls[c].Waiting? ==> Apply(s, e).calls[c] == s.calls[c]
  {
  }

  /** However a load fails, by its loader or by the write to Redis, its key is free again and nothing else changes. */
  lemma {:induction false} FailureFreesTheKey(es: seq<Event>, p: nat)
    requires p < |Run(INIT, es).flights| && Run(INIT, es).flights[p].Active()
    ensures var s := Run(INIT, es); var key := s.flights[p].key;
            var t := Apply(s, if s.flights[p].phase.Loading? then LoaderSettles(p, None) else StoreSettles(p, false));
            && t == s.(flights := s.flights[p := Flight(key, Failed)], inFlight := s.inFlight - {key})
            && key in s.inFlight
  {
    RunInv(es);
  }

  /** Invalidating a key takes it out of Redis, and no other. */
  lemma DropForgets(s: State, key: Key)
    ensures var t := Apply(s, Drop(key));
            && t == s.(redis := t.redis) && t.redis.Keys == s.redis.Keys - {key}
            && forall k | k in t.redis :: t.redis[k] == s.redis[k]
  {
  }

  ghost predicate NoStillborn(s: State) {
    forall p | 0 <= p < |s.flights| :: !s.flights[p].phase.Stillborn?
  }

  /** The map holds a key exactly while its one leader is loading or storing. */
  ghost predicate MapIsExact(s: State) {
    forall k :: k in s.inFlight <==> exists p | 0 <= p < |s.flights| :: s.flights[p].key == k && s.flights[p].Active()
  }

  /** That holds in a reached state if and only if no loader ever threw synchronously. */
  lemma MapExactIffNoStillborn(es: seq<Event>)
    ensures MapIsExact(Run(INIT, es)) <==> NoStillborn(Run(INIT, es))
  {
    var s := Run(INIT, es);
    RunInv(es);
    if NoStillborn(s) {
      forall k
        ensures k in s.inFlight <==> exists p | 0 <= p < |s.flights| :: s.flights[p].key == k && s.flights[p].Active()
      {
        if k in s.inFlight {
          assert s.flights[s.inFlight[k]].Active();
        }
      }
    }
    forall p | 0 <= p < |s.flights| && s.flights[p].phase.Stillborn?
      ensures !MapIsExact(s)
    {
      var k := s.flights[p].key;
      assert s.inFlight[k] == p;
      forall q | 0 <= q < |s.flights| && s.flights[q].key == k
        ensures !s.flights[q].Active()
      {
      }
    }
  }

  ghost predicate NeverThrowsAtOnce(es: seq<Event>) {
    forall i | 0 <= i < |es| && es[i].Resume? :: !es[i].throwsAtOnce
  }

  lemma ApplyKeepsNoStillborn(s: State, e: Event)
    requires NoStillborn(s) && (e.Resume? ==> !e.throwsAtOnce)
    ensures NoStillborn(Apply(s, e))
  {
  }

  /** With loaders that fail only through their promise, the map is exact in every run. */
  lemma {:induction false} AsyncLoadersKeepMapExact(es: seq<Event>)
    requires NeverThrowsAtOnce(es)
    ensures NoStillborn(Run(INIT, es)) && MapIsExact(Run(INIT, es))
  {
    if es != [] {
      AsyncLoadersKeepMapExact(es[..|es| - 1]);
      ApplyKeepsNoStillborn(Run(INIT, es[..|es| - 1]), es[|es| - 1]);
    }
    MapExactIffNoStillborn(es);
  }

  lemma {:induction false} StillbornStaysSoFar(es: seq<Event>, more: seq<Event>, p: nat)
    requires p < |Run(INIT, es).flights| && Run(INIT, es).flights[p].phase.Stillborn?
    ensures p < |Run(INIT, es + more).flights| && Run(INIT, es + more).flights[p] == Run(INIT, es).flights[p]
  {
    if more == [] {
      assert es + more == es;
    } else {
      var n := |more| - 1;
      StillbornStaysSoFar(es, more[..n], p);
      assert (es + more)[..|es + more| - 1] == es + more[..n];
      ApplyKeepsStillborn(Run(INIT, es + more[..n]), more[n], p);
    }
  }

  lemma ApplyKeepsStillborn(s: State, e: Event, p: nat)
    requires p < |s.flights| && s.flights[p].phase.Stillborn?
    ensures p < |Apply(s, e).flights| && Apply(s, e).flights[p] == s.flights[p]
  {
  }

  /**
   A loader that throws synchronously poisons its key: the clean-up runs before the
   entry is made, and no later event ever removes the entry again.
   */
  lemma StillbornStays(es: seq<Event>, more: seq<Event>, p: nat)
    requires p < |Run(INIT, es).flights| && Run(INIT, es).flights[p].phase.Stillborn?
    ensures var s := Run(INIT, es + more); var k := Run(INIT, es).flights[p].key;
            p < |s.flights| && s.flights[p] == Flight(k, Stillborn) && k in s.inFlight && s.inFlight[k] == p
  {
    StillbornStaysSoFar(es, more, p);
    RunInv(es + more);
  }

  /** A run that gets there: the first call for a key starts a loader that throws synchronously. */
  lemma SynchronousThrowLeavesStillborn(key: Key)
    ensures var s := Run(INIT, [Ask(1, key)] + [Answer(1)] + [Resume(1, true)]);
            && |s.flights| == 1 && s.flights[0] == Flight(key, Stillborn)
            && s.inFlight == map[key := 0] && s.calls == map[1 := Waiting(key, 0)]
  {
    var es := [Ask(1, key)] + [Answer(1)] + [Resume(1, true)];
    assert es[..2] == [Ask(1, key)] + [Answer(1)] && es[..2][..1] == [Ask(1, key)] && es[..2][..1][..0] == [];
    var asked := INIT.(calls := map[1 := Asked(key)]);
    var answered := INIT.(calls := map[1 := Answered(key, None)]);
    assert Apply(INIT, Ask(1, key)) == asked;
    assert Run(INIT, es[..2][..1]) == asked;
    assert Apply(asked, Answer(1)) == answered;
    assert Run(INIT, es[..2]) == answered;
  }

  /**
   In any state: a load is stillborn after a step iff it was, or the step starts it with a loader that
   throws synchronously.
   */
  lemma BecomesStillbornIff(s: State, e: Event, p: nat)
    requires p < |Apply(s, e).flights|
    ensures Apply(s, e).flights[p].phase.Stillborn? <==>
              || (p < |s.flights| && s.flights[p].phase.Stillborn?)
              || (p == |s.flights| && e.Resume? && e.throwsAtOnce && e.c in s.calls && s.calls[e.c].Answered?
                  && s.calls[e.c].cached.None? && s.calls[e.c].key !in s.inFlight)
  {
  }

  // ---------------------------------------------------------------------
  // The service, updated in place
  // ---------------------------------------------------------------------

  class RedisCacheService {
    var redis: map<Key, Value>
    var inFlight: map<Key, nat>
    var flights: seq<Flight>
    var calls: map<nat, Call>
    ghost var loaded: set<(Key, Value)>

    ghost function View(): State
      reads this
    {
      State(redis, inFlight, flights, calls, loaded)
    }

    constructor ()
      ensures View() == INIT
    {
      redis, inFlight, flights, calls, loaded := map[], map[], [], map[], {};
    }

    /** The stretch of `wrap` after the Redis answer, up to its next await. */
    method ResumeWrap(c: nat, throwsAtOnce: bool)
      requires c in calls && calls[c].Answered?
      modifies this
      ensures View() == Apply(old(View()), Resume(c, throwsAtOnce))
    {
      var key := calls[c].key;
      if calls[c].cached.Some? {
        calls := calls[c := Returned(key, calls[c].cached.value, None)];
        return;
      }
      if key in inFlight {
        calls := calls[c := Waiting(key, inFlight[key])];
        return;
      }
      var p := |flights|;
      flights := flights + [Flight(key, Loading)];
      if throwsAtOnce {
        flights := flights[p := Flight(key, Stillborn)];
        inFlight := inFlight - {key};
      }
      inFlight := inFlight[key := p];
      calls := calls[c := Waiting(key, p)];
    }

    /** The loader's promise settles: store the value, or clean up after a failure. */
    method ResumeLoad(p: nat, outcome: Option<Value>)
      requires p < |flights| && flights[p].phase.Loading?
      modifies this
      ensures View() == Apply(old(View()), LoaderSettles(p, outcome))
    {
      var key := flights[p].key;
      if outcome.Some? {
        flights := flights[p := Flight(key, Storing(outcome.value))];
        loaded := loaded + {(key, outcome.value)};
      } else {
        flights := flights[p := Flight(key, Failed)];
        inFlight := inFlight - {key};
      }
    }

    /** Redis confirms or refuses the write; either way the entry is removed. */
    method ResumeStore(p: nat, ok: bool)
      requires p < |flights| && (flights[p].phase.Stored? || (flights[p].phase.Storing? && !ok))
      modifies this
      ensures View() == Apply(old(View()), StoreSettles(p, ok))
    {
      var key := flights[p].key;
      flights := flights[p := Flight(key, if ok then Done(flights[p].phase.value) else Failed)];
      inFlight := inFlight - {key};
    }
  }
}
