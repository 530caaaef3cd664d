/**
 Telegram polling. One process fetches updates, handles them one after the other
 and saves how far it got; it may be killed between any two awaits and starts
 again from what was saved. Redelivered messages are caught by their stored row.
 */
module Polling {
  import opened Options

  datatype Update = Update(id: nat, body: Body)

  datatype Body =
    | Callback(origin: Option<int>, callbackId: string, isOption: bool)
    | Message(chat: int, messageId: nat, text: Option<string>, hasMedia: bool)
    | Other

  /** The external message id; a row carrying it is what the duplicate check finds. */
  datatype Key = OfMessage(chat: int, messageId: nat) | OfCallback(chat: int, callbackId: string)

  datatype Row = Customer(key: Key) | Engine(replyTo: Key)

  // ---------------------------------------------------------------------
  // What an update asks for
  // ---------------------------------------------------------------------

  datatype Action =
    | Ignore
    | Welcome
    | Acknowledge(tapped: Option<Key>)
    | Converse(key: Key, forceEscalate: bool)

  const START := "/start"
  const SPACES: set<char> := {' ', '\t', '\n', '\r', '\U{0B}', '\U{0C}', '\U{A0}', '\U{1680}', '\U{2028}', '\U{2029}',
                              '\U{202F}', '\U{205F}', '\U{3000}', '\U{FEFF}'}

  predicate IsSpace(c: char) {
    c in SPACES || '\U{2000}' <= c <= '\U{200A}'
  }

  function TrimStart(s: string): string {
    if s != "" && IsSpace(s[0]) then TrimStart(s[1..]) else s
  }

  function Classify(b: Body): Action {
    match b
    case Other => Ignore
    case Callback(origin, callbackId, isOption) =>
      if origin.None? || origin.value == 0 then Ignore
      else Acknowledge(if isOption then Some(OfCallback(origin.value, callbackId)) else None)
    case Message(chat, messageId, text, hasMedia) =>
      if text.Some? && START <= TrimStart(text.value) then Welcome
      else if hasMedia then Converse(OfMessage(chat, messageId), true)
      else if text.None? || text.value == "" then Ignore
      else Converse(OfMessage(chat, messageId), false)
  }

  // ---------------------------------------------------------------------
  // What that means, read off the update itself
  // ---------------------------------------------------------------------

  /** After `n` characters of white space comes the start command. */
  ghost predicate StartsAt(text: string, n: nat) {
    n <= |text| && (forall i | 0 <= i < n :: IsSpace(text[i])) && START <= text[n..]
  }

  ghost predicate IsStart(text: string) {
    exists n: nat :: StartsAt(text, n)
  }

  /** A message with a text or media, other than the start command: it must not be lost. */
  ghost predicate MustBeStored(u: Update) {
    && u.body.Message?
    && !(u.body.text.Some? && IsStart(u.body.text.value))
    && (u.body.hasMedia || (u.body.text.Some? && u.body.text.value != ""))
  }

  /** A tap on an option, in a chat that is known. */
  predicate IsOptionTap(u: Update) {
    u.body.Callback? && u.body.isOption && u.body.origin.Some? && u.body.origin.value != 0
  }

  /** Photos, voice messages and the like go to a human. */
  predicate HasMedia(u: Update) {
    u.body.Message? && u.body.hasMedia
  }

  ghost function StoredKey(u: Update): Option<Key> {
    if MustBeStored(u) then Some(OfMessage(u.body.chat, u.body.messageId)) else None
  }

  lemma StartAfterSpace(text: string, n: nat)
    requires text != "" && IsSpace(text[0])
    ensures StartsAt(text, n + 1) <==> StartsAt(text[1..], n)
    ensures !StartsAt(text, 0)
  {
    assert !IsSpace(START[0]);
    assert text[0..] == text;
    if n < |text| {
      assert text[1..][n..] == text[n + 1..];
    }
    if StartsAt(text[1..], n) {
      assert forall i | 0 < i < n + 1 :: text[i] == text[1..][i - 1];
    }
  }

  lemma {:induction false} TrimmedStartIff(text: string)
    ensures START <= TrimStart(text) <==> IsStart(text)
  {
    if text != "" && IsSpace(text[0]) {
      TrimmedStartIff(text[1..]);
      if IsStart(text) {
        var n: nat :| StartsAt(text, n);
        StartAfterSpace(text, if n > 0 then n - 1 else 0);
      }
      if IsStart(text[1..]) {
        var n: nat :| StartsAt(text[1..], n);
        StartAfterSpace(text, n);
      }
    } else {
      assert text[0..] == text;
      assert StartsAt(text, 0) <==> START <= text;
    }
  }

  /**
   Every update, by its own fields: a message other than the start command is stored under its chat
   and number if and only if it has media or a text, and left to a human exactly when it has media;
   a tap is answered when its chat is known, and stored when it is on an option.
   */
  lemma ActionsFitUpdates(u: Update)
    ensures forall key, forced :: Classify(u.body) == Converse(key, forced) <==>
              MustBeStored(u) && key == OfMessage(u.body.chat, u.body.messageId) && (forced <==> HasMedia(u))
    ensures forall key :: Classify(u.body) == Acknowledge(Some(key)) <==>
              IsOptionTap(u) && key == OfCallback(u.body.origin.value, u.body.callbackId)
    ensures Classify(u.body) == Acknowledge(None) <==>
              u.body.Callback? && !u.body.isOption && u.body.origin.Some? && u.body.origin.value != 0
    ensures Classify(u.body).Welcome? <==> u.body.Message? && u.body.text.Some? && IsStart(u.body.text.value)
  {
    if u.body.Message? && u.body.text.Some? {
      TrimmedStartIff(u.body.text.value);
    }
  }

  // ---------------------------------------------------------------------
  // The process, one await at a time
  // ---------------------------------------------------------------------

  /** Where inside the handling of one update the process waits. */
  datatype Phase =
    | Begin
    | Admit(key: Key)
    | LookUp(key: Key, human: bool)
    | StoreCustomer(key: Key, human: bool)
    | AskEngine(key: Key)
    | StoreReply(key: Key)
    | SaveConversation(key: Key)
    | Deliver(key: Key)

  datatype Process =
    | Down
    | Polling(offset: nat)
    | Handling(offset: nat, at: nat, end: nat, phase: Phase)
    | Saving(offset: nat)

  /** `feed` is all Telegram ever had for the bot; below `confirmed` it returns nothing any more. */
  datatype State = State(feed: seq<Update>, confirmed: nat, stored: nat, rows: seq<Row>, process: Process)

  /** How an awaited call ends; a failed write may still have taken effect. */
  datatype Outcome = Done | NotDone | DoneButLost

  datatype Event =
    | Arrive(u: Update)
    | Fetch(n: nat, ok: bool)
    | Step(outcome: Outcome, human: bool)
    | Crash
    | Restart

  const INIT := State([], 0, 0, [], Down)

  /** The first update at or after `offset` that Telegram still returns. */
  function FirstFrom(feed: seq<Update>, offset: nat): (i: nat)
    ensures i <= |feed|
    ensures forall j | 0 <= j < i :: feed[j].id < offset
    ensures i < |feed| ==> feed[i].id >= offset
  {
    if feed == [] || feed[0].id >= offset then 0 else 1 + FirstFrom(feed[1..], offset)
  }

  function Max(a: nat, b: nat): nat { if a < b then b else a }

  function At(s: State, phase: Phase): State
    requires s.process.Handling?
  {
    s.(process := s.process.(phase := phase))
  }

  /** The update at hand is done: move past it, or save when it was the last one. */
  function Advance(s: State): State
    requires s.process.Handling? && s.process.at < |s.feed|
  {
    var Handling(_, at, end, _) := s.process;
    var offset := s.feed[at].id + 1;
    s.(process := if at + 1 < end then Handling(offset, at + 1, end, Begin) else Saving(offset))
  }

  /** An error in handling: a tap swallows it, a message goes back to polling. */
  function Fail(s: State, key: Key): State
    requires s.process.Handling? && s.process.at < |s.feed|
  {
    if key.OfCallback? then Advance(s) else Retry(s)
  }

  function Retry(s: State): State
    requires s.process.Handling?
  {
    s.(process := Polling(s.process.offset))
  }

  function Written(s: State, row: Row, o: Outcome): State {
    if o.NotDone? then s else s.(rows := s.rows + [row])
  }

  function Start(s: State, ok: bool): State
    requires s.process.Handling? && s.process.at < |s.feed|
  {
    match Classify(s.feed[s.process.at].body)
    case Ignore => Advance(s)
    case Welcome => if ok then Advance(s) else Retry(s)
    case Acknowledge(tapped) =>
      if !ok then Retry(s) else if tapped.None? then Advance(s) else At(s, Admit(tapped.value))
    case Converse(key, _) => At(s, Admit(key))
  }

  function HandleStep(s: State, o: Outcome, human: bool): State
    requires s.process.Handling? && s.process.at < |s.feed|
  {
    var u := s.feed[s.process.at];
    match s.process.phase
    case Begin => Start(s, o.Done?)
    case Admit(key) => if o.Done? then At(s, LookUp(key, human)) else Fail(s, key)
    case LookUp(key, human) =>
      if !o.Done? then Fail(s, key)
      else if Customer(key) in s.rows then Advance(s)
      else At(s, StoreCustomer(key, human))
    case StoreCustomer(key, human) =>
      var s' := Written(s, Customer(key), o);
      if !o.Done? then Fail(s', key)
      else At(s', if human || HasMedia(u) then SaveConversation(key) else AskEngine(key))
    case AskEngine(key) => if o.Done? then At(s, StoreReply(key)) else Fail(s, key)
    case StoreReply(key) =>
      var s' := Written(s, Engine(key), o);
      if o.Done? then At(s', SaveConversation(key)) else Fail(s', key)
    case SaveConversation(key) => if o.Done? then At(s, Deliver(key)) else Fail(s, key)
    case Deliver(key) => if o.Done? then Advance(s) else Fail(s, key)
  }

  /** An event that is not possible in a state leaves it as it is. */
  function Apply(s: State, e: Event): State {
    match e
    case Arrive(u) =>
      if s.feed == [] || s.feed[|s.feed| - 1].id < u.id then s.(feed := s.feed + [u]) else s
    case Fetch(n, ok) =>
      if !s.process.Polling? then s
      else
        var offset := s.process.offset;
        var from := FirstFrom(s.feed, Max(offset, s.confirmed));
        var s' := s.(confirmed := Max(offset, s.confirmed));
        if !ok || n == 0 || from + n > |s.feed| then s'
        else s'.(process := Handling(offset, from, from + n, Begin))
    case Step(o, human) =>
      if s.process.Handling? && s.process.at < |s.feed| then HandleStep(s, o, human)
      else if s.process.Saving? then
        s.(stored := if o.NotDone? then s.stored else s.process.offset, process := Polling(s.process.offset))
      else s
    case Crash => s.(process := Down)
    case Restart => if s.process.Down? then s.(process := Polling(s.stored)) else s
  }

  function Run(s: State, es: seq<Event>): State {
    if es == [] then s else Apply(Run(s, es[..|es| - 1]), es[|es| - 1])
  }

  // ---------------------------------------------------------------------
  // The invariant
  // ---------------------------------------------------------------------

  ghost predicate Ascending(feed: seq<Update>) {
    forall i, j | 0 <= i < j < |feed| :: feed[i].id < feed[j].id
  }

  /** One customer row and at most one engine row a key, the answer after the question. */
  ghost predicate RowsOnce(rows: seq<Row>) {
    && (forall i, j | 0 <= i < j < |rows| :: rows[i] != rows[j])
    && (forall k | Engine(k) in rows :: Customer(k) in rows)
  }

  ghost predicate Kept(rows: seq<Row>, u: Update) {
    MustBeStored(u) ==> Customer(OfMessage(u.body.chat, u.body.messageId)) in rows
  }

  /** The id after the last update. */
  function Ceiling(feed: seq<Update>): nat {
    if feed == [] then 0 else feed[|feed| - 1].id + 1
  }

  /** Every message below `offset` has its row, and nothing below it can still arrive. */
  ghost predicate KeptBelow(feed: seq<Update>, rows: seq<Row>, offset: nat) {
    && offset <= Ceiling(feed)
    && forall i | 0 <= i < |feed| && feed[i].id < offset :: Kept(rows, feed[i])
  }

  ghost predicate KeptFirst(feed: seq<Update>, rows: seq<Row>, n: nat) {
    n <= |feed| && forall i | 0 <= i < n :: Kept(rows, feed[i])
  }

  /** The offset a process holds in memory. */
  function Offset(p: Process): nat {
    if p.Down? then 0 else p.offset
  }

  ghost predicate Base(s: State) {
    && Ascending(s.feed)
    && RowsOnce(s.rows)
    && KeptBelow(s.feed, s.rows, s.stored)
    && KeptBelow(s.feed, s.rows, s.confirmed)
    && KeptBelow(s.feed, s.rows, Offset(s.process))
    && (s.process.Handling? ==> s.process.at < s.process.end <= |s.feed| && KeptFirst(s.feed, s.rows, s.process.at))
  }

  /** The waiting phase belongs to the update at hand and to what is stored for it. */
  ghost predicate PhaseFits(rows: seq<Row>, u: Update, phase: Phase) {
    phase.Begin? || (
      && (Classify(u.body) == Acknowledge(Some(phase.key)) || StoredKey(u) == Some(phase.key))
      && (phase.StoreCustomer? ==> Customer(phase.key) !in rows)
      && (phase.AskEngine? || phase.StoreReply? ==> Engine(phase.key) !in rows)
      && (phase.AskEngine? || phase.StoreReply? || phase.SaveConversation? || phase.Deliver?
         ==> Customer(phase.key) in rows))
  }

  ghost predicate Inv(s: State) {
    Base(s) && (s.process.Handling? ==> PhaseFits(s.rows, s.feed[s.process.at], s.process.phase))
  }

  lemma KeysFitUpdates(u: Update)
    ensures Classify(u.body).Acknowledge? && Classify(u.body).tapped.Some? ==> Classify(u.body).tapped.value.OfCallback?
    ensures Classify(u.body).Converse? <==> MustBeStored(u)
    ensures Classify(u.body).Converse? ==>
              && StoredKey(u) == Some(Classify(u.body).key) && Classify(u.body).key.OfMessage?
              && (Classify(u.body).forceEscalate <==> HasMedia(u))
  {
    ActionsFitUpdates(u);
  }

  lemma AdvanceKeepsInv(s: State)
    requires Base(s) && s.process.Handling? && Kept(s.rows, s.feed[s.process.at])
    ensures Inv(Advance(s))
  {
    var at := s.process.at;
    assert KeptFirst(s.feed, s.rows, at + 1);
    assert forall i | 0 <= i < |s.feed| && s.feed[i].id < s.feed[at].id + 1 :: i < at + 1;
    assert s.feed[at].id <= s.feed[|s.feed| - 1].id;
  }

  /** Only a tap is passed over after an error, and a tap need not be kept. */
  lemma FailKeepsInv(s: State, key: Key)
    requires Base(s) && s.process.Handling?
    requires var u := s.feed[s.process.at]; Classify(u.body) == Acknowledge(Some(key)) || StoredKey(u) == Some(key)
    ensures Inv(Fail(s, key))
  {
    if key.OfCallback? {
      AdvanceKeepsInv(s);
    }
  }

  lemma WrittenKeepsBase(s: State, row: Row, o: Outcome)
    requires Base(s) && row !in s.rows && (row.Engine? ==> Customer(row.replyTo) in s.rows)
    ensures Base(Written(s, row, o)) && (!o.NotDone? ==> row in Written(s, row, o).rows)
  {
    var rows := Written(s, row, o).rows;
    assert forall r :: r in s.rows ==> r in rows;
    assert forall u :: Kept(s.rows, u) ==> Kept(rows, u);
    forall i, j | 0 <= i < j < |rows|
      ensures rows[i] != rows[j]
    {
      assert j < |s.rows| || rows[j] == row;
      assert rows[i] in s.rows;
    }
  }

  lemma MoveKeepsInv(s: State, phase: Phase)
    requires Base(s) && s.process.Handling? && PhaseFits(s.rows, s.feed[s.process.at], phase)
    ensures Inv(At(s, phase))
  {
  }

  lemma TapKeepsInv(s: State, o: Outcome, human: bool)
    requires Inv(s) && s.process.Handling? && s.process.phase.Begin?
    requires Classify(s.feed[s.process.at].body).Acknowledge?
    ensures Inv(HandleStep(s, o, human))
  {
    var tapped := Classify(s.feed[s.process.at].body).tapped;
    if tapped.Some? {
      MoveKeepsInv(s, Admit(tapped.value));
    } else {
      AdvanceKeepsInv(s);
    }
  }

  lemma BeginKeepsInv(s: State, o: Outcome, human: bool)
    requires Inv(s) && s.process.Handling? && s.process.phase.Begin?
    ensures Inv(HandleStep(s, o, human))
  {
    var u := s.feed[s.process.at];
    KeysFitUpdates(u);
    match Classify(u.body)
    case Converse(key, _) => MoveKeepsInv(s, Admit(key));
    case Acknowledge(tapped) => TapKeepsInv(s, o, human);
    case _ => AdvanceKeepsInv(s);
  }

  lemma LookUpKeepsInv(s: State, o: Outcome, human: bool)
    requires Inv(s) && s.process.Handling? && s.process.phase.LookUp?
    ensures Inv(HandleStep(s, o, human))
  {
    var key := s.process.phase.key;
    FailKeepsInv(s, key);
    if Customer(key) in s.rows {
      AdvanceKeepsInv(s);
    }
  }

  lemma StoreKeepsInv(s: State, o: Outcome, human: bool)
    requires Inv(s) && s.process.Handling? && s.process.phase.StoreCustomer?
    ensures Inv(HandleStep(s, o, human))
  {
    var key := s.process.phase.key;
    var s' := Written(s, Customer(key), o);
    WrittenKeepsBase(s, Customer(key), o);
    FailKeepsInv(s', key);
    assert Engine(key) !in s.rows;
  }

  lemma ReplyKeepsInv(s: State, o: Outcome, human: bool)
    requires Inv(s) && s.process.Handling? && s.process.phase.StoreReply?
    ensures Inv(HandleStep(s, o, human))
  {
    var key := s.process.phase.key;
    WrittenKeepsBase(s, Engine(key), o);
    FailKeepsInv(Written(s, Engine(key), o), key);
  }

  lemma StepKeepsInv(s: State, o: Outcome, human: bool)
    requires Inv(s) && s.process.Handling?
    ensures Inv(HandleStep(s, o, human))
  {
    match s.process.phase
    case Begin => BeginKeepsInv(s, o, human);
    case LookUp(_, _) => LookUpKeepsInv(s, o, human);
    case StoreCustomer(_, _) => StoreKeepsInv(s, o, human);
    case StoreReply(_) => ReplyKeepsInv(s, o, human);
    case Deliver(key) =>
      FailKeepsInv(s, key);
      KeysFitUpdates(s.feed[s.process.at]);
      AdvanceKeepsInv(s);
    case _ => FailKeepsInv(s, s.process.phase.key);
  }

  lemma ArriveKeepsInv(s: State, u: Update)
    requires Inv(s)
    ensures Inv(Apply(s, Arrive(u)))
  {
    var s' := Apply(s, Arrive(u));
    if s' != s {
      assert forall i | 0 <= i < |s.feed| :: s'.feed[i] == s.feed[i] && s.feed[i].id < u.id;
    }
  }

  lemma FetchKeepsInv(s: State, n: nat, ok: bool)
    requires Inv(s)
    ensures Inv(Apply(s, Fetch(n, ok)))
  {
    if s.process.Polling? {
      var offset := Max(s.process.offset, s.confirmed);
      var from := FirstFrom(s.feed, offset);
      assert KeptFirst(s.feed, s.rows, from);
    }
  }

  lemma ApplyKeepsInv(s: State, e: Event)
    requires Inv(s)
    ensures Inv(Apply(s, e))
  {
    match e
    case Arrive(u) => ArriveKeepsInv(s, u);
    case Fetch(n, ok) => FetchKeepsInv(s, n, ok);
    case Step(o, human) => if s.process.Handling? { StepKeepsInv(s, o, human); }
    case Crash =>
    case Restart =>
  }

  lemma {:induction false} RunKeepsInv(s: State, es: seq<Event>)
    requires Inv(s)
    ensures Inv(Run(s, es))
  {
    if es != [] {
      RunKeepsInv(s, es[..|es| - 1]);
      ApplyKeepsInv(Run(s, es[..|es| - 1]), es[|es| - 1]);
    }
  }

  lemma RunInv(es: seq<Event>)
    ensures Inv(Run(INIT, es))
  {
    RunKeepsInv(INIT, es);
  }

  // ---------------------------------------------------------------------
  // What holds in every run
  // ---------------------------------------------------------------------

  /** However often a message is delivered, it is stored once and answered at most once, after it was stored. */
  lemma {:induction false} StoredOnceAnsweredAtMostOnce(es: seq<Event>, key: Key)
    ensures var rows := multiset(Run(INIT, es).rows);
            rows[Engine(key)] <= rows[Customer(key)] <= 1
  {
    RunInv(es);
    var rows := Run(INIT, es).rows;
    CountOnce(rows, Customer(key));
    CountOnce(rows, Engine(key));
  }

  lemma {:induction false} CountOnce(rows: seq<Row>, row: Row)
    requires forall i, j | 0 <= i < j < |rows| :: rows[i] != rows[j]
    ensures multiset(rows)[row] == if row in rows then 1 else 0
  {
    if rows != [] {
      var n := |rows| - 1;
      assert rows == rows[..n] + [rows[n]];
      CountOnce(rows[..n], row);
    }
  }

  /** Whenever the saved offset, the offset in memory or Telegram itself has passed a message, its row exists. */
  lemma PassedMeansStored(es: seq<Event>, i: nat)
    requires var s := Run(INIT, es);
             && i < |s.feed| && MustBeStored(s.feed[i])
             && (s.feed[i].id < s.stored || s.feed[i].id < s.confirmed || s.feed[i].id < Offset(s.process))
    ensures var s := Run(INIT, es); Customer(OfMessage(s.feed[i].body.chat, s.feed[i].body.messageId)) in s.rows
  {
    RunInv(es);
    assert Kept(Run(INIT, es).rows, Run(INIT, es).feed[i]);
  }

  lemma {:induction false} RunInTwo(s: State, es: seq<Event>, more: seq<Event>)
    ensures Run(s, es + more) == Run(Run(s, es), more)
  {
    if more == [] {
      assert es + more == es;
    } else {
      var n := |more| - 1;
      assert (es + more)[..|es + more| - 1] == es + more[..n];
      RunInTwo(s, es, more[..n]);
    }
  }

  /** A stored message without an answer, whose answer is not being made right now. */
  ghost predicate Unanswered(s: State, key: Key) {
    && Customer(key) in s.rows && Engine(key) !in s.rows
    && (s.process.Handling? && (s.process.phase.AskEngine? || s.process.phase.StoreReply?)
       ==> s.process.phase.key != key)
  }

  lemma ApplyKeepsUnanswered(s: State, e: Event, key: Key)
    requires Inv(s) && Unanswered(s, key)
    ensures Unanswered(Apply(s, e), key)
  {
    if e.Step? && s.process.Handling? {
      StepKeepsUnanswered(s, e.outcome, e.human, key);
    }
  }

  lemma StepKeepsUnanswered(s: State, o: Outcome, human: bool, key: Key)
    requires Inv(s) && Unanswered(s, key) && s.process.Handling?
    ensures Unanswered(HandleStep(s, o, human), key)
  {
  }

  /**
   The price of answering at most once: a message whose engine run was cut short,
   by an error or a crash, is never answered by the engine, however often it is redelivered.
   */
  lemma {:induction false} UnansweredStays(es: seq<Event>, more: seq<Event>, key: Key)
    requires Unanswered(Run(INIT, es), key)
    ensures Unanswered(Run(INIT, es + more), key)
  {
    if more == [] {
      assert es + more == es;
    } else {
      var n := |more| - 1;
      UnansweredStays(es, more[..n], key);
      RunInv(es + more[..n]);
      ApplyKeepsUnanswered(Run(INIT, es + more[..n]), more[n], key);
      RunOneMore(es, more);
    }
  }

  lemma {:induction false} RunOneMore(es: seq<Event>, more: seq<Event>)
    requires more != []
    ensures Run(INIT, es + more) == Apply(Run(INIT, es + more[..|more| - 1]), more[|more| - 1])
  {
    assert (es + more)[..|es + more| - 1] == es + more[..|more| - 1];
  }

  /**
   What a caller can see coming: the step that leaves a message unanswered. Its row
   is stored for a conversation a human has, or without the process hearing of it;
   or the engine run, or the writing of its answer, is cut short.
   */
  predicate CutsOff(s: State, e: Event, key: Key) {
    && s.process.Handling? && s.process.at < |s.feed| && !s.process.phase.Begin? && s.process.phase.key == key
    && match s.process.phase
       case StoreCustomer(_, human) =>
         e.Step? && (e.outcome.DoneButLost? || (e.outcome.Done? && (human || HasMedia(s.feed[s.process.at]))))
       case AskEngine(_) => e.Crash? || (e.Step? && !e.outcome.Done?)
       case StoreReply(_) => e.Crash? || (e.Step? && e.outcome.NotDone?)
       case _ => false
  }

  lemma BecomesUnansweredIff(s: State, e: Event, key: Key)
    requires Inv(s) && !Unanswered(s, key)
    ensures Unanswered(Apply(s, e), key) <==> CutsOff(s, e, key)
  {
    match e
    case Arrive(_) =>
    case Fetch(_, _) =>
    case Step(o, human) => if s.process.Handling? { StepUnansweredIff(s, o, human, key); }
    case Crash =>
    case Restart =>
  }

  lemma StepUnansweredIff(s: State, o: Outcome, human: bool, key: Key)
    requires Inv(s) && !Unanswered(s, key) && s.process.Handling?
    ensures Unanswered(HandleStep(s, o, human), key) <==> CutsOff(s, Step(o, human), key)
  {
    match s.process.phase
    case Begin =>
    case StoreCustomer(k, _) => assert k == key ==> Engine(key) !in s.rows;
    case AskEngine(_) =>
    case StoreReply(_) =>
    case _ =>
  }

  /** The engine run of a message under way still leads to its answer. */
  lemma AnswerUnderWay(s: State, key: Key) returns (more: seq<Event>)
    requires Inv(s) && s.process.Handling? && (s.process.phase == AskEngine(key) || s.process.phase == StoreReply(key))
    ensures Engine(key) in Run(s, more).rows
  {
    RunOne(s, SMOOTH);
    more := [SMOOTH];
    if s.process.phase.AskEngine? {
      RunOne(Apply(s, SMOOTH), SMOOTH);
      RunInTwo(s, [SMOOTH], [SMOOTH]);
      more := [SMOOTH] + [SMOOTH];
    }
  }

  /** Exactly: a stored message can still come to have an answer if and only if it is not unanswered now. */
  lemma AnsweredInTheEndIff(es: seq<Event>, key: Key)
    requires Customer(key) in Run(INIT, es).rows
    ensures (exists more: seq<Event> :: Engine(key) in Run(INIT, es + more).rows) <==> !Unanswered(Run(INIT, es), key)
  {
    var s := Run(INIT, es);
    if Unanswered(s, key) {
      forall more: seq<Event>
        ensures Engine(key) !in Run(INIT, es + more).rows
      {
        UnansweredStays(es, more, key);
      }
    } else if Engine(key) in s.rows {
      assert es + [] == es;
      assert Engine(key) in Run(INIT, es + []).rows;
    } else {
      RunInv(es);
      var more := AnswerUnderWay(s, key);
      RunInTwo(INIT, es, more);
      assert Engine(key) in Run(INIT, es + more).rows;
    }
  }

  // ---------------------------------------------------------------------
  // Nothing is stored or answered that was not asked
  // ---------------------------------------------------------------------

  /** The update is the message or the tap on an option that `key` names. */
  ghost predicate IsAbout(u: Update, key: Key) {
    || (MustBeStored(u) && key == OfMessage(u.body.chat, u.body.messageId))
    || (IsOptionTap(u) && key == OfCallback(u.body.origin.value, u.body.callbackId))
  }

  /** A CUSTOMER row is about an update, an ENGINE row about one without media. */
  ghost predicate Asks(u: Update, row: Row) {
    match row
    case Customer(key) => IsAbout(u, key)
    case Engine(key) => IsAbout(u, key) && !HasMedia(u)
  }

  ghost predicate Sourced(s: State) {
    && (forall row <- s.rows :: exists u <- s.feed :: Asks(u, row))
    && (s.process.Handling? && s.process.at < |s.feed| && (s.process.phase.AskEngine? || s.process.phase.StoreReply?)
        ==> !HasMedia(s.feed[s.process.at]))
  }

  lemma PhaseIsAbout(s: State)
    requires Inv(s) && s.process.Handling? && !s.process.phase.Begin?
    ensures IsAbout(s.feed[s.process.at], s.process.phase.key)
  {
    ActionsFitUpdates(s.feed[s.process.at]);
  }

  lemma RowsStaySourced(s: State, s': State, row: Row)
    requires Sourced(s) && s.feed <= s'.feed
    requires s'.rows == s.rows || (s'.rows == s.rows + [row] && exists u <- s'.feed :: Asks(u, row))
    ensures forall r <- s'.rows :: exists u <- s'.feed :: Asks(u, r)
  {
    forall r | r in s'.rows
      ensures exists u <- s'.feed :: Asks(u, r)
    {
      if r in s.rows {
        var u :| u in s.feed && Asks(u, r);
        assert u in s'.feed;
      }
    }
  }

  lemma StepKeepsSourced(s: State, o: Outcome, human: bool)
    requires Inv(s) && Sourced(s) && s.process.Handling?
    ensures Sourced(HandleStep(s, o, human))
  {
    var u := s.feed[s.process.at];
    var s' := HandleStep(s, o, human);
    assert u in s'.feed;
    match s.process.phase
    case StoreCustomer(key, _) => PhaseIsAbout(s); RowsStaySourced(s, s', Customer(key));
    case StoreReply(key) => PhaseIsAbout(s); RowsStaySourced(s, s', Engine(key));
    case _ => assert s'.rows == s.rows;
  }

  lemma ApplyKeepsSourced(s: State, e: Event)
    requires Inv(s) && Sourced(s)
    ensures Sourced(Apply(s, e))
  {
    match e
    case Arrive(_) => RowsStaySourced(s, Apply(s, e), Customer(OfMessage(0, 0)));
    case Step(o, human) => if s.process.Handling? { StepKeepsSourced(s, o, human); }
    case _ =>
  }

  lemma {:induction false} RunIsSourced(es: seq<Event>)
    ensures Sourced(Run(INIT, es))
  {
    if es != [] {
      RunIsSourced(es[..|es| - 1]);
      RunInv(es[..|es| - 1]);
      ApplyKeepsSourced(Run(INIT, es[..|es| - 1]), es[|es| - 1]);
    }
  }

  /**
   In every run a row is about an update that Telegram delivered: a text or media message or a tap on
   an option, never the start command; and the engine only ever answers what has no media.
   */
  lemma {:induction false} RowsComeFromUpdates(es: seq<Event>, row: Row)
    requires row in Run(INIT, es).rows
    ensures exists u <- Run(INIT, es).feed :: Asks(u, row)
  {
    RunIsSourced(es);
  }

  // ---------------------------------------------------------------------
  // One update from beginning to end
  // ---------------------------------------------------------------------

  /** What is still written for the update at hand when nothing fails. */
  function StillWritten(s: State, human: bool): seq<Row>
    requires s.process.Handling? && s.process.at < |s.feed| && !s.process.phase.Begin?
  {
    var key := s.process.phase.key;
    var human := if s.process.phase.LookUp? || s.process.phase.StoreCustomer? then s.process.phase.human else human;
    var answer := if human || HasMedia(s.feed[s.process.at]) then [] else [Engine(key)];
    match s.process.phase
    case AskEngine(_) => [Engine(key)]
    case StoreReply(_) => [Engine(key)]
    case SaveConversation(_) => []
    case Deliver(_) => []
    case StoreCustomer(_, _) => [Customer(key)] + answer
    case _ => if Customer(key) in s.rows then [] else [Customer(key)] + answer
  }

  /** One step of it: what is written now and what is still written after it are what was still written before. */
  lemma SmoothlyOn(s: State, human: bool) returns (t: State)
    requires InBatch(s) && !s.process.phase.Begin?
    ensures t == HandleStep(s, Done, human)
    ensures t == Advance(s).(rows := s.rows + StillWritten(s, human))
            || (InBatch(t) && !t.process.phase.Begin? && Rank(t.process.phase) < Rank(s.process.phase)
                && Advance(t) == Advance(s).(rows := t.rows)
                && t.rows + StillWritten(t, human) == s.rows + StillWritten(s, human))
  {
    t := HandleStep(s, Done, human);
    assert s.rows + [] == s.rows;
  }

  lemma {:induction false} FinishesSmoothly(s: State, human: bool) returns (es: seq<Event>)
    requires InBatch(s) && !s.process.phase.Begin?
    ensures forall e <- es :: e == Step(Done, human)
    ensures Run(s, es) == Advance(s).(rows := s.rows + StillWritten(s, human))
    decreases Rank(s.process.phase)
  {
    var e := Step(Done, human);
    var t := SmoothlyOn(s, human);
    if t == Advance(s).(rows := s.rows + StillWritten(s, human)) {
      RunOne(s, e);
      es := [e];
    } else {
      var rest := FinishesSmoothly(t, human);
      es := OneMoreBefore(s, e, t, rest);
    }
  }

  /** What one delivery of an update writes, read off the update: nothing, its row, or its row and an answer. */
  ghost predicate WrittenOnce(u: Update, rows: seq<Row>, human: bool, written: seq<Row>) {
    && (forall key | IsAbout(u, key) && Customer(key) !in rows ::
          written == [Customer(key)] + (if human || HasMedia(u) then [] else [Engine(key)]))
    && ((forall key | IsAbout(u, key) :: Customer(key) in rows) ==> written == [])
  }

  lemma AboutOne(u: Update, a: Key, b: Key)
    requires IsAbout(u, a) && IsAbout(u, b)
    ensures a == b
  {
  }

  /** The first step: an update with something to store is taken in hand, any other is done with. */
  lemma FirstSmoothStep(s: State, human: bool) returns (t: State)
    requires InBatch(s) && s.process.phase.Begin?
    ensures t == HandleStep(s, Done, human)
    ensures (forall key :: !IsAbout(s.feed[s.process.at], key)) ==> t == Advance(s)
    ensures forall key | IsAbout(s.feed[s.process.at], key) :: t == At(s, Admit(key))
  {
    var u := s.feed[s.process.at];
    ActionsFitUpdates(u);
    t := HandleStep(s, Done, human);
    match Classify(u.body)
    case Converse(key, forced) => assert Classify(u.body) == Converse(key, forced) && IsAbout(u, key);
    case Acknowledge(Some(key)) => assert Classify(u.body) == Acknowledge(Some(key)) && IsAbout(u, key);
    case _ =>
  }

  /**
   An update that is handled without an error: a message or a tap that is new gets its CUSTOMER row,
   and then its ENGINE row unless a human has the conversation or it has media; nothing else is
   written, and the process is done with that update.
   */
  lemma HandledSmoothly(s: State, human: bool) returns (es: seq<Event>, written: seq<Row>)
    requires InBatch(s) && s.process.phase.Begin?
    ensures forall e <- es :: e == Step(Done, human)
    ensures WrittenOnce(s.feed[s.process.at], s.rows, human, written)
    ensures Run(s, es) == Advance(s).(rows := s.rows + written)
  {
    if key :| IsAbout(s.feed[s.process.at], key) {
      es, written := StoredSmoothly(s, human, key);
    } else {
      var _ := FirstSmoothStep(s, human);
      RunOne(s, Step(Done, human));
      es, written := [Step(Done, human)], [];
      assert s.rows + [] == s.rows;
    }
  }

  lemma StoredSmoothly(s: State, human: bool, key: Key) returns (es: seq<Event>, written: seq<Row>)
    requires InBatch(s) && s.process.phase.Begin? && IsAbout(s.feed[s.process.at], key)
    ensures forall e <- es :: e == Step(Done, human)
    ensures WrittenOnce(s.feed[s.process.at], s.rows, human, written)
    ensures Run(s, es) == Advance(s).(rows := s.rows + written)
  {
    var t := FirstSmoothStep(s, human);
    assert t == At(s, Admit(key));
    var rest := FinishesSmoothly(t, human);
    written := StillWritten(t, human);
    WrittenFromAdmit(s, human, key);
    AdmittedOnce(s.feed[s.process.at], s.rows, human, key, written);
    es := OneMoreBefore(s, Step(Done, human), t, rest);
  }

  lemma OneMoreBefore(s: State, e: Event, t: State, rest: seq<Event>) returns (es: seq<Event>)
    requires t == Apply(s, e) && forall f <- rest :: f == e
    ensures Run(s, es) == Run(t, rest) && forall f <- es :: f == e
  {
    RunOne(s, e);
    RunInTwo(s, [e], rest);
    es := [e] + rest;
  }

  lemma WrittenFromAdmit(s: State, human: bool, key: Key)
    requires InBatch(s)
    ensures var t := At(s, Admit(key));
            && Advance(t) == Advance(s)
            && StillWritten(t, human)
            == if Customer(key) in s.rows then []
               else [Customer(key)] + (if human || HasMedia(s.feed[s.process.at]) then [] else [Engine(key)])
  {
  }

  lemma AdmittedOnce(u: Update, rows: seq<Row>, human: bool, key: Key, written: seq<Row>)
    requires IsAbout(u, key)
    requires written == if Customer(key) in rows then []
                        else [Customer(key)] + (if human || HasMedia(u) then [] else [Engine(key)])
    ensures WrittenOnce(u, rows, human, written)
  {
    forall k | IsAbout(u, k)
      ensures k == key
    {
      AboutOne(u, k, key);
    }
  }

  /**
   An error past the first step: what failed may have been written or not, a tap is passed over all
   the same, and a message is fetched again from the offset in memory.
   */
  lemma FailedStep(s: State, o: Outcome, human: bool)
    requires Inv(s) && s.process.Handling? && !s.process.phase.Begin? && !o.Done?
    ensures var s' := HandleStep(s, o, human); var u := s.feed[s.process.at];
            && s' == s.(rows := s'.rows, process := s'.process)
            && s'.process == (if IsOptionTap(u) then Advance(s).process else Polling(s.process.offset))
            && s'.rows == s.rows + (if !o.DoneButLost? then []
                                    else if s.process.phase.StoreCustomer? then [Customer(s.process.phase.key)]
                                    else if s.process.phase.StoreReply? then [Engine(s.process.phase.key)]
                                    else [])
  {
    ActionsFitUpdates(s.feed[s.process.at]);
    assert s.rows + [] == s.rows;
  }

  /** At the first step only the greeting after a start command and the receipt of a tap can fail; both come again. */
  lemma FailedFirstStep(s: State, o: Outcome, human: bool)
    requires InBatch(s) && s.process.phase.Begin? && !o.Done?
    ensures var s' := HandleStep(s, o, human); var u := s.feed[s.process.at];
            && (s' == s.(process := Polling(s.process.offset)) <==>
                  || (u.body.Message? && u.body.text.Some? && IsStart(u.body.text.value))
                  || (u.body.Callback? && u.body.origin.Some? && u.body.origin.value != 0))
            && s'.rows == s.rows
  {
    ActionsFitUpdates(s.feed[s.process.at]);
  }

  /** A fetch confirms everything below its offset, and hands over the next `n` updates from there. */
  lemma FetchHandsOver(s: State, n: nat, ok: bool)
    requires s.process.Polling? && Ascending(s.feed)
    ensures var s' := Apply(s, Fetch(n, ok)); var offset := s.process.offset;
            && offset <= s'.confirmed && s.confirmed <= s'.confirmed
            && (s'.confirmed == offset || s'.confirmed == s.confirmed)
            && s' == s.(confirmed := s'.confirmed, process := s'.process)
            && (s'.process == s.process <==> !ok || n == 0 || n > |s.feed| - FirstFrom(s.feed, s'.confirmed))
            && (s'.process != s.process ==>
                  && InBatch(s')
                  && s'.process == Handling(offset, s'.process.at, s'.process.at + n, Begin)
                  && forall i | 0 <= i < |s.feed| :: i < s'.process.at <==> s.feed[i].id < s'.confirmed)
  {
    var from := FirstFrom(s.feed, Max(s.process.offset, s.confirmed));
    assert forall i | from < i < |s.feed| :: s.feed[from].id < s.feed[i].id;
  }

  /** After a batch its offset is saved, unless the write fails, and polling goes on from there either way. */
  lemma BatchIsSaved(s: State, o: Outcome, human: bool)
    requires s.process.Saving?
    ensures var s' := Apply(s, Step(o, human));
            && s'.process == Polling(s.process.offset)
            && s'.stored == (match o case NotDone => s.stored case _ => s.process.offset)
            && s' == s.(stored := s'.stored, process := s'.process)
  {
  }

  const GREETING := Update(1, Message(5, 9, Some("hi"), false))
  const GREETED := State([GREETING], 0, 0, [], Polling(0))
  const ASKING := GREETED.(rows := [Customer(OfMessage(5, 9))],
      process := Handling(0, 0, 1, AskEngine(OfMessage(5, 9))))
  const ARRIVES: seq<Event> := [Arrive(GREETING)] + [Restart]
  const IS_STORED: seq<Event> := [Fetch(1, true)] + [SMOOTH] + [SMOOTH] + [SMOOTH] + [SMOOTH]

  lemma GreetingArrives()
    ensures Run(INIT, ARRIVES) == GREETED
  {
    RunOne(INIT, Arrive(GREETING));
    RunInTwo(INIT, [Arrive(GREETING)], [Restart]);
    RunOne(Apply(INIT, Arrive(GREETING)), Restart);
  }

  lemma GreetingIsConversation()
    ensures Classify(GREETING.body) == Converse(OfMessage(5, 9), false)
  {
    assert TrimStart("hi") == "hi";
    assert !(START <= "hi");
  }

  lemma GreetingIsStored()
    ensures Run(GREETED, IS_STORED) == ASKING
  {
    GreetingIsConversation();
    var key := OfMessage(5, 9);
    var a := GREETED.(process := Handling(0, 0, 1, Begin));
    assert FirstFrom([GREETING], 0) == 0;
    assert Apply(GREETED, Fetch(1, true)) == a;
    assert Apply(a, SMOOTH) == At(a, Admit(key));
    assert Apply(At(a, Admit(key)), SMOOTH) == At(a, LookUp(key, false));
    assert Apply(At(a, LookUp(key, false)), SMOOTH) == At(a, StoreCustomer(key, false));
    assert Apply(At(a, StoreCustomer(key, false)), SMOOTH) == ASKING;
    RunOne(GREETED, Fetch(1, true));
    RunLast(GREETED, [Fetch(1, true)], SMOOTH);
    RunLast(GREETED, [Fetch(1, true)] + [SMOOTH], SMOOTH);
    RunLast(GREETED, [Fetch(1, true)] + [SMOOTH] + [SMOOTH], SMOOTH);
    RunLast(GREETED, [Fetch(1, true)] + [SMOOTH] + [SMOOTH] + [SMOOTH], SMOOTH);
  }

  lemma RunLast(s: State, es: seq<Event>, e: Event)
    ensures Run(s, es + [e]) == Apply(Run(s, es), e)
  {
    assert (es + [e])[..|es|] == es;
  }

  /** A run that gets there: a greeting is stored and the process is killed while the engine runs. */
  lemma KilledWhileAsking()
    ensures Unanswered(Run(INIT, ARRIVES + IS_STORED + [Crash]), OfMessage(5, 9))
  {
    GreetingArrives();
    GreetingIsStored();
    RunInTwo(INIT, ARRIVES, IS_STORED);
    RunLast(INIT, ARRIVES + IS_STORED, Crash);
  }

  // ---------------------------------------------------------------------
  // No message is lost for good
  // ---------------------------------------------------------------------

  const SMOOTH := Step(Done, false)

  function Rank(p: Phase): nat {
    match p
    case Begin => 7
    case Admit(_) => 6
    case LookUp(_, _) => 5
    case StoreCustomer(_, _) => 4
    case AskEngine(_) => 3
    case StoreReply(_) => 2
    case SaveConversation(_) => 1
    case Deliver(_) => 0
  }

  lemma RunOne(s: State, e: Event)
    ensures Run(s, [e]) == Apply(s, e)
  {
    assert [e][..0] == [];
  }

  /** In the middle of a batch. */
  ghost predicate InBatch(s: State) {
    s.process.Handling? && s.process.at < s.process.end <= |s.feed|
  }

  lemma SmoothStep(s: State) returns (t: State)
    requires InBatch(s)
    ensures t == HandleStep(s, Done, false) && t.feed == s.feed
    ensures t.process == Saving(s.feed[s.process.end - 1].id + 1)
            || (InBatch(t) && t.process.end == s.process.end
                && (t.process.at > s.process.at
                    || (t.process.at == s.process.at && Rank(t.process.phase) < Rank(s.process.phase))))
  {
    t := HandleStep(s, Done, false);
  }

  /** Without further errors a batch is worked off to its end. */
  lemma {:induction false} BatchFinishes(s: State) returns (es: seq<Event>)
    requires InBatch(s)
    ensures var s' := Run(s, es); s'.feed == s.feed && s'.process == Saving(s.feed[s.process.end - 1].id + 1)
    decreases s.process.end - s.process.at, Rank(s.process.phase)
  {
    var t := SmoothStep(s);
    RunOne(s, SMOOTH);
    es := [SMOOTH];
    if !t.process.Saving? {
      var rest := BatchFinishes(t);
      es := es + rest;
      RunInTwo(s, [SMOOTH], rest);
    }
  }

  /** Every message that must not be lost has its row. */
  ghost predicate AllStored(s: State) {
    forall u <- s.feed | MustBeStored(u) :: Customer(OfMessage(u.body.chat, u.body.messageId)) in s.rows
  }

  lemma {:induction false} RestartedReadyToFetch(s: State)
    ensures var t := Run(s, [Crash, Restart]); t.feed == s.feed && t.process == Polling(s.stored)
  {
    RunInTwo(s, [Crash], [Restart]);
    assert [Crash] + [Restart] == [Crash, Restart];
    RunOne(s, Crash);
    RunOne(Apply(s, Crash), Restart);
  }

  /** One error-free fetch of all that is left stores every message. */
  lemma FetchAllStores(s: State) returns (es: seq<Event>)
    requires Inv(s) && s.process.Polling?
    ensures Run(s, es).feed == s.feed && AllStored(Run(s, es))
  {
    es := [];
    if FirstFrom(s.feed, Max(s.process.offset, s.confirmed)) < |s.feed| {
      es := FetchAllHandles(s);
      RunKeepsInv(s, es);
      AllBelowCeiling(Run(s, es));
    }
  }

  lemma FetchAllHandles(s: State) returns (es: seq<Event>)
    requires s.process.Polling? && FirstFrom(s.feed, Max(s.process.offset, s.confirmed)) < |s.feed|
    ensures Run(s, es).feed == s.feed && Run(s, es).process == Saving(Ceiling(s.feed))
  {
    var fetch, t := FetchesAll(s);
    assert t.feed[t.process.end - 1].id + 1 == Ceiling(s.feed);
    es := BatchAfter(s, fetch, t);
  }

  lemma BatchAfter(s: State, e: Event, t: State) returns (es: seq<Event>)
    requires t == Run(s, [e]) && InBatch(t)
    ensures Run(s, es).feed == t.feed && Run(s, es).process == Saving(t.feed[t.process.end - 1].id + 1)
  {
    var rest := BatchFinishes(t);
    RunInTwo(s, [e], rest);
    es := [e] + rest;
  }

  lemma FetchesAll(s: State) returns (fetch: Event, t: State)
    requires s.process.Polling? && FirstFrom(s.feed, Max(s.process.offset, s.confirmed)) < |s.feed|
    ensures t == Run(s, [fetch]) && InBatch(t) && t.feed == s.feed && t.process.end == |s.feed|
  {
    fetch := Fetch(|s.feed| - FirstFrom(s.feed, Max(s.process.offset, s.confirmed)), true);
    t := Apply(s, fetch);
    RunOne(s, fetch);
  }

  lemma AllBelowCeiling(s: State)
    requires Inv(s) && s.feed != [] && Offset(s.process) == Ceiling(s.feed)
    ensures AllStored(s)
  {
    var n := |s.feed| - 1;
    assert forall i | 0 <= i < n :: s.feed[i].id < s.feed[n].id;
  }

  /**
   From any state a run can reach, whatever failed before, a restart followed by
   an error-free batch leaves every message Telegram ever accepted stored.
   */
  lemma EveryMessageCanStillBeStored(es: seq<Event>) returns (more: seq<Event>)
    ensures Run(INIT, es + more).feed == Run(INIT, es).feed && AllStored(Run(INIT, es + more))
  {
    var s := Run(INIT, es);
    var again := [Crash, Restart];
    RunInv(es);
    RestartedReadyToFetch(s);
    RunKeepsInv(s, again);
    var rest := FetchAllStores(Run(s, again));
    more := again + rest;
    RunInTwo(s, again, rest);
    RunInTwo(INIT, es, more);
  }

  // ---------------------------------------------------------------------
  // The service
  // ---------------------------------------------------------------------

  datatype Answer = Answer(outcome: Outcome, human: bool)
  datatype Round = Round(n: nat, ok: bool)

  /** How a call ends for its caller; Killed when the process dies in it. */
  datatype End = Completed | Duplicate | Threw | Killed

  ghost predicate Closed(among: State -> bool) {
    among(INIT) && forall s, e | among(s) :: among(Apply(s, e))
  }

  /** In every set of states that holds the first one and is closed under events. */
  ghost predicate Reachable(s: State) {
    forall among: State -> bool | Closed(among) :: among(s)
  }

  lemma ReachableIffRun(s: State)
    ensures Reachable(s) <==> exists es :: Run(INIT, es) == s
  {
    if Reachable(s) {
      var among := (t: State) => exists es :: Run(INIT, es) == t;
      assert Run(INIT, []) == INIT;
      forall t, e | among(t)
        ensures among(Apply(t, e))
      {
        var es :| Run(INIT, es) == t;
        RunInTwo(INIT, es, [e]);
        RunOne(t, e);
      }
      assert Closed(among);
      assert among(s);
      assert exists es :: Run(INIT, es) == s;
    }
    if es :| Run(INIT, es) == s {
      RunReachable(es);
    }
  }

  lemma ReachableKeepsInv(s: State)
    requires Reachable(s)
    ensures Inv(s)
  {
    ReachableIffRun(s);
    var es :| Run(INIT, es) == s;
    RunInv(es);
  }

  lemma {:induction false} RunReachable(es: seq<Event>)
    ensures Reachable(Run(INIT, es))
  {
    if es != [] {
      RunReachable(es[..|es| - 1]);
    }
  }

  /**
   `answers` are the outcomes the awaited calls will have; when they run out the
   process is killed. `machine` is the state of the model that the events so far lead to.
   */
  class PollingService {
    var feed: seq<Update>
    var confirmed: nat
    var stored: nat
    var rows: seq<Row>
    var answers: seq<Answer>
    ghost var machine: State

    ghost predicate Valid()
      reads this
    {
      Reachable(machine) && machine == State(feed, confirmed, stored, rows, machine.process)
    }

    constructor (answers: seq<Answer>)
      ensures Valid() && machine == INIT && this.answers == answers
    {
      feed, confirmed, stored, rows := [], 0, 0, [];
      this.answers, machine := answers, INIT;
    }

    ghost method Observe(e: Event)
      requires Reachable(machine)
      modifies `machine
      ensures machine == Apply(old(machine), e) && Reachable(machine)
    {
      machine := Apply(machine, e);
    }

    /** Waits for the next awaited call in a handler; None when the process is killed first. */
    method Await() returns (a: Option<Answer>)
      requires Reachable(machine) && machine.process.Handling? && machine.process.at < |machine.feed|
      modifies `answers, `machine
      ensures Reachable(machine)
      ensures machine == if a.None? then old(machine) else HandleStep(old(machine), a.value.outcome, a.value.human)
    {
      if answers == [] {
        return None;
      }
      a := Some(answers[0]);
      answers := answers[1..];
      Observe(Step(a.value.outcome, a.value.human));
    }

    /** Rate limit, conversation and duplicate check; Completed when the message is new. */
    method Admission(key: Key) returns (end: End, human: bool)
      requires Valid() && machine.process.Handling? && machine.process.at < |feed|
      requires machine.process.phase == Admit(key)
      modifies `answers, `machine
      ensures Valid()
      ensures end.Completed? ==> machine == At(old(machine), StoreCustomer(key, human))
      ensures end.Duplicate? ==> machine == Advance(old(machine)) && Customer(key) in rows
      ensures end.Threw? ==> machine == Fail(old(machine), key)
    {
      human := false;
      var a := Await();
      if a.None? { return Killed, human; }
      if !a.value.outcome.Done? { return Threw, human; }
      human := a.value.human;
      a := Await();
      if a.None? { return Killed, human; }
      if !a.value.outcome.Done? { return Threw, human; }
      end := if Customer(key) in rows then Duplicate else Completed;
    }

    /** The engine's answer and its row. */
    method Answer(key: Key) returns (end: End)
      requires Valid() && machine.process.Handling? && machine.process.at < |feed|
      requires machine.process.phase == AskEngine(key)
      modifies `rows, `answers, `machine
      ensures Valid()
      ensures end.Completed? ==> machine == At(old(machine), SaveConversation(key)).(rows := rows)
      ensures end.Threw? ==> machine == Fail(old(machine), key).(rows := rows)
      ensures !end.Duplicate?
    {
      var a := Await();
      if a.None? { return Killed; }
      if !a.value.outcome.Done? { return Threw; }
      a := Await();
      if a.None? { return Killed; }
      if !a.value.outcome.NotDone? { rows := rows + [Engine(key)]; }
      end := if a.value.outcome.Done? then Completed else Threw;
    }

    /** Stores the message once and lets the engine answer it, unless a human has the conversation. */
    method ProcessIncomingMessage(key: Key, forceEscalate: bool) returns (end: End)
      requires Valid() && machine.process.Handling? && machine.process.at < |feed|
      requires machine.process.phase == Admit(key) && forceEscalate == HasMedia(feed[machine.process.at])
      modifies `rows, `answers, `machine
      ensures Valid()
      ensures end.Completed? ==> machine == At(old(machine), Deliver(key)).(rows := rows)
      ensures end.Duplicate? ==> machine == Advance(old(machine)) && Customer(key) in rows
      ensures end.Threw? ==> machine == Fail(old(machine), key).(rows := rows)
    {
      var human;
      end, human := Admission(key);
      if !end.Completed? { return; }

      var a := Await();
      if a.None? { return Killed; }
      if !a.value.outcome.NotDone? { rows := rows + [Customer(key)]; }
      if !a.value.outcome.Done? { return Threw; }

      if !(human || forceEscalate) {
        end := Answer(key);
        if !end.Completed? { return; }
      }

      a := Await();
      if a.None? { return Killed; }
      end := if a.value.outcome.Done? then Completed else Threw;
    }

    /** Processing followed by the delivery of the reply. */
    method Converse(key: Key, forceEscalate: bool) returns (end: End)
      requires Valid() && machine.process.Handling? && machine.process.at < |feed|
      requires machine.process.phase == Admit(key) && forceEscalate == HasMedia(feed[machine.process.at])
      modifies `rows, `answers, `machine
      ensures Valid()
      ensures end.Completed? || end.Duplicate? ==> machine == Advance(old(machine)).(rows := rows)
      ensures end.Threw? ==> machine == Fail(old(machine), key).(rows := rows)
    {
      end := ProcessIncomingMessage(key, forceEscalate);
      if end.Completed? {
        var a := Await();
        if a.None? { return Killed; }
        end := if a.value.outcome.Done? then Completed else Threw;
      }
    }

    /** Duplicates count as handled; errors of a tap are swallowed, those of a message thrown on. */
    method Handle(u: Update) returns (end: End)
      requires Valid() && machine.process.Handling? && machine.process.phase.Begin?
      requires machine.process.at < |feed| && u == feed[machine.process.at]
      modifies `rows, `answers, `machine
      ensures Valid() && !end.Duplicate?
      ensures end.Completed? ==> machine == Advance(old(machine)).(rows := rows)
      ensures end.Threw? ==> machine == Retry(old(machine)).(rows := rows)
    {
      KeysFitUpdates(u);
      match Classify(u.body)
      case Ignore =>
        Observe(SMOOTH);
        return Completed;
      case Welcome =>
        var a := Await();
        if a.None? { return Killed; }
        end := if a.value.outcome.Done? then Completed else Threw;
      case Acknowledge(tapped) =>
        var a := Await();
        if a.None? { return Killed; }
        if !a.value.outcome.Done? { return Threw; }
        if tapped.None? { return Completed; }
        end := Converse(tapped.value, false);
        if !end.Killed? { end := Completed; }
      case Converse(key, forceEscalate) =>
        Observe(SMOOTH);
        end := Converse(key, forceEscalate);
        if end.Duplicate? { end := Completed; }
    }

    /** Telegram's side: a new update, with an id above all earlier ones. */
    method Arrive(u: Update)
      requires Valid() && (feed == [] || feed[|feed| - 1].id < u.id)
      modifies `feed, `machine
      ensures Valid() && feed == old(feed) + [u]
    {
      Observe(Event.Arrive(u));
      feed := feed + [u];
    }

    /**
     One life of the polling loop: it starts at the saved offset, handles each batch
     update by update and saves the offset after a whole batch. All it does is a run of the machine.
     */
    method PollLoop(rounds: seq<Round>)
      requires Valid() && machine.process.Down?
      modifies this
      ensures Valid() && machine.process.Down? && feed == old(feed)
      ensures RowsOnce(rows) && KeptBelow(feed, rows, stored)
    {
      Observe(Restart);
      var offset := stored;
      for r := 0 to |rounds|
        invariant Valid() && feed == old(feed)
        invariant machine.process == Polling(offset)
      {
        var killed;
        offset, killed := PollOnce(rounds[r], offset);
        if killed { break; }
      }
      Observe(Crash);
      ReachableKeepsInv(machine);
    }

    /** One turn of the loop; an error anywhere leads back to polling from `offset'`. */
    method PollOnce(round: Round, offset: nat) returns (offset': nat, killed: bool)
      requires Valid() && machine.process == Polling(offset)
      modifies `confirmed, `stored, `rows, `answers, `machine
      ensures Valid()
      ensures !killed ==> machine.process == Polling(offset')
    {
      Observe(Fetch(round.n, round.ok));
      confirmed := Max(offset, confirmed);
      var from := FirstFrom(feed, confirmed);
      var end := from + round.n;
      if !round.ok || round.n == 0 || end > |feed| {
        return offset, false;
      }
      var failed;
      offset', failed, killed := HandleBatch(from, end, offset);
      if failed || killed {
        return;
      }
      if answers == [] {
        return offset', true;
      }
      var outcome := answers[0].outcome;
      answers := answers[1..];
      Observe(Step(outcome, false));
      if !outcome.NotDone? { stored := offset'; }
    }

    method HandleBatch(from: nat, end: nat, offset: nat) returns (offset': nat, failed: bool, killed: bool)
      requires Valid() && from < end <= |feed| && machine.process == Handling(offset, from, end, Begin)
      modifies `rows, `answers, `machine
      ensures Valid()
      ensures !killed ==> machine.process == if failed then Polling(offset') else Saving(offset')
    {
      offset', failed, killed := offset, false, false;
      for i := from to end
        invariant Valid()
        invariant machine.process == if i < end then Handling(offset', i, end, Begin) else Saving(offset')
      {
        var result := Handle(feed[i]);
        if result.Killed? { return offset', false, true; }
        if result.Threw? { return offset', true, false; }
        offset' := feed[i].id + 1;
      }
    }
  }
}
