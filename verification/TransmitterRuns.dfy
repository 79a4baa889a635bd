/** What holds in every state a run of the transmitter can reach. */
module TransmitterRuns {
  import opened BigEndian
  import opened Messages
  import opened Transmission
  import opened TransmitterSteps
  import opened Ledger

  // ------------------------------------------------------------- handlers

  lemma ControlledAfterFailure(s: State, t: State)
    requires Controlled(s) && Fails(s, t) && s.pending == multiset{HandlerOf(s.phase)}
    ensures Controlled(t)
  {
    hide Answers;
  }

  /** What a read that leaves the confirmation incomplete does not touch. */
  lemma CollectsKeeps(s: State, t: State)
    ensures Collects(s, t) ==>
              && t.phase == ReceivingConfirmation && t.worker == s.worker && t.running == s.running
              && t.shutdown == s.shutdown
              && t.errDelay == s.errDelay && t.sentinel == s.sentinel && t.pending == multiset{OnConfirmation}
              && t.sending == s.sending && t.h == s.h.(received := t.h.received)
  {
  }

  lemma ControlledAfterAdvance(s: State, t: State)
    requires Controlled(s) && Advances(s, t) && s.pending == multiset{HandlerOf(s.phase)}
    ensures Controlled(t)
  {
    hide Frame, Stored, ElementsOf, Front, Rest, Collects;
    CollectsKeeps(s, t);
  }

  lemma ControlledAfterEnd(s: State, t: State)
    requires Controlled(s) && (Halts(s, t) || Succeeds(s, t) || Expires(s, t))
    requires IsWaiting(s.phase) && s.pending == multiset{HandlerOf(s.phase)}
    ensures Controlled(t)
  {
    hide Answers;
  }

  lemma ControlledAfterCompletion(s: State, t: State)
    requires Controlled(s) && Effect(s, t) && IsWaiting(s.phase) && s.pending == multiset{HandlerOf(s.phase)}
    ensures Controlled(t)
  {
    hide Controlled, Advances, Fails, Halts, Succeeds, Expires;
    if Fails(s, t) {
      ControlledAfterFailure(s, t);
    } else if Advances(s, t) {
      ControlledAfterAdvance(s, t);
    } else {
      ControlledAfterEnd(s, t);
    }
  }

  lemma ControlledAfterOther(s: State, e: Event)
    requires Controlled(s) && Enabled(s, e) && !IsCompletion(e)
    ensures Controlled(Next(s, e))
  {
    assert multiset{} + multiset{OnResolve} == multiset{OnResolve};
  }

  lemma ControlledKept(s: State, e: Event)
    requires Controlled(s) && Reading(s) && Enabled(s, e)
    ensures Controlled(Next(s, e))
  {
    hide Effect, Controlled, Next;
    if IsCompletion(e) {
      CompletionEffect(s, e);
      ControlledAfterCompletion(s, Next(s, e));
    } else {
      ControlledAfterOther(s, e);
    }
  }

  lemma ReadingAfterCompletion(s: State, t: State)
    requires Reading(s) && Effect(s, t)
    ensures Reading(t)
  {
    hide Frame, Stored, Answers;
  }

  lemma ReadingKept(s: State, e: Event)
    requires Controlled(s) && Reading(s) && Enabled(s, e)
    ensures Reading(Next(s, e))
  {
    hide Effect;
    if IsCompletion(e) {
      CompletionEffect(s, e);
      ReadingAfterCompletion(s, Next(s, e));
    }
  }

  // -------------------------------------------------------------- backoff

  function Power2(n: nat): (r: nat)
    ensures r > 0
  {
    if n == 0 then 1 else 2 * Power2(n - 1)
  }

  /** The delay factor after so many failures in a row. */
  function Delay(failures: nat): nat {
    if failures >= 6 then MAX_DELAY else Power2(failures)
  }

  ghost predicate Backing(s: State) {
    && (s.phase == Error ==> s.h.waits != [])
    && s.errDelay == Delay(if s.phase == Error then |s.h.waits| - 1 else |s.h.waits|)
    && forall i :: 0 <= i < |s.h.waits| ==> s.h.waits[i] == HEARTBEAT * Delay(i)
  }

  lemma DelayDoubles(n: nat)
    ensures Delay(n + 1) == if Delay(n) < MAX_DELAY then Delay(n) * 2 else Delay(n)
    ensures Delay(0) == 1
  {
    assert Power2(6) == 64;
  }

  lemma BackingAfterFailure(s: State, t: State)
    requires Backing(s) && Fails(s, t)
    ensures Backing(t)
  {
    hide Delay, Answers;
  }

  lemma BackingAfterDelay(s: State, t: State)
    requires Backing(s) && Expires(s, t)
    ensures Backing(t)
  {
    hide Delay;
    DelayDoubles(|s.h.waits| - 1);
  }

  lemma BackingAfterCompletion(s: State, t: State)
    requires Backing(s) && Effect(s, t)
    ensures Backing(t)
  {
    hide Frame, Stored, Answers, Delay, Collects, Fails, Expires;
    DelayDoubles(0);
    if Fails(s, t) {
      BackingAfterFailure(s, t);
    } else if Expires(s, t) {
      BackingAfterDelay(s, t);
    } else {
      CollectsKeeps(s, t);
    }
  }

  lemma BackingKept(s: State, e: Event)
    requires Controlled(s) && Reading(s) && Backing(s) && Enabled(s, e)
    ensures Backing(Next(s, e))
  {
    hide Effect, Delay;
    DelayDoubles(0);
    if IsCompletion(e) {
      CompletionEffect(s, e);
      BackingAfterCompletion(s, Next(s, e));
    }
  }

  // --------------------------------------------------------------- losses

  ghost predicate FewLost(s: State) {
    |s.h.lost| + (if !IsLive(s.worker) || s.shutdown then |InFlight(s)| else 0) <= s.h.stops
  }

  lemma FewLostAfterCompletion(s: State, t: State)
    requires Controlled(s) && FewLost(s) && Effect(s, t)
    requires IsWaiting(s.phase) && s.pending == multiset{HandlerOf(s.phase)}
    ensures FewLost(t)
  {
    hide Frame, Stored, Answers;
  }

  lemma FewLostKept(s: State, e: Event)
    requires Controlled(s) && Reading(s) && FewLost(s) && Enabled(s, e)
    ensures FewLost(Next(s, e))
  {
    hide Effect;
    if IsCompletion(e) {
      CompletionEffect(s, e);
      FewLostAfterCompletion(s, Next(s, e));
    }
  }

  // --------------------------------------------------------------- ledger

  function LedgerOf(s: State): Ledger {
    Ledger(|s.h.posted|, s.h.confirmed, InFlight(s), s.queue, s.h.dropped, s.h.lost, s.h.log)
  }

  lemma AdvanceIsMove(s: State, t: State) returns (m: Move)
    requires Advances(s, t)
    ensures CanMove(LedgerOf(s), m) && LedgerOf(t) == Moved(LedgerOf(s), m)
    ensures !m.Add? && !m.Clear? && !m.GiveUp? && (m.Take? <==> s.phase == Connecting && t.phase == Sending)
  {
    hide Frame, Stored, Reading;
    m := if s.phase == Connecting then Take(Frame(ElementsOf(s.store, Front(s.queue)))) else Keep;
  }

  lemma FailureIsMove(s: State, t: State) returns (m: Move)
    requires Fails(s, t)
    ensures CanMove(LedgerOf(s), m) && LedgerOf(t) == Moved(LedgerOf(s), m)
    ensures !m.Add? && !m.Clear? && !m.GiveUp? && (m.Take? <==> s.phase == Connecting && t.phase == Sending)
  {
    m := if t.h.log == s.h.log then PutBack else Reject(t.h.log[|t.h.log| - 1].status);
  }

  lemma CompletionIsMove(s: State, t: State) returns (m: Move)
    requires Effect(s, t)
    ensures CanMove(LedgerOf(s), m) && LedgerOf(t) == Moved(LedgerOf(s), m)
    ensures !m.Add? && !m.Clear? && !m.GiveUp? && (m.Take? <==> s.phase == Connecting && t.phase == Sending)
  {
    hide Advances, Fails;
    if Advances(s, t) {
      m := AdvanceIsMove(s, t);
    } else if Fails(s, t) {
      m := FailureIsMove(s, t);
    } else if Succeeds(s, t) {
      m := Confirm(t.h.log[|t.h.log| - 1].status);
    } else {
      m := Keep;
    }
  }

  lemma OtherKeeps(s: State, e: Event)
    requires Controlled(s) && Enabled(s, e) && !IsCompletion(e) && !e.Post? && !e.Drop? && !e.WorkerBegin?
    ensures LedgerOf(Next(s, e)) == LedgerOf(s) && !(s.phase == Connecting && Next(s, e).phase == Sending)
  {
    hide HandlerOf, IsLive;
  }

  lemma OtherIsMove(s: State, e: Event) returns (m: Move)
    requires Controlled(s) && |s.store| == |s.h.posted| && Enabled(s, e) && !IsCompletion(e)
    ensures CanMove(LedgerOf(s), m) && LedgerOf(Next(s, e)) == Moved(LedgerOf(s), m)
    ensures (m.Add? <==> e.Post?) && (m.Clear? <==> e.Drop?) && (m.GiveUp? <==> e.WorkerBegin?)
    ensures m.Take? <==> s.phase == Connecting && Next(s, e).phase == Sending
  {
    hide Controlled, HandlerOf, IsLive, Frame, Stored, Front, Rest, NextWorkerCheck, NextKick;
    if e.Post? {
      m := Add;
    } else if e.Drop? {
      m := Clear;
    } else if e.WorkerBegin? {
      m := GiveUp;
    } else {
      m := Keep;
      OtherKeeps(s, e);
    }
  }

  /** Every event is a move of the ledger: a post adds, a drop clears, a new worker gives up what is still held,
      and a completion takes, puts back, rejects, confirms or leaves everything in place. */
  lemma StepIsMove(s: State, e: Event) returns (m: Move)
    requires Controlled(s) && Reading(s) && |s.store| == |s.h.posted| && Enabled(s, e)
    ensures CanMove(LedgerOf(s), m) && LedgerOf(Next(s, e)) == Moved(LedgerOf(s), m)
    ensures (m.Add? <==> e.Post?) && (m.Clear? <==> e.Drop?) && (m.GiveUp? <==> e.WorkerBegin?)
    ensures m.Take? <==> s.phase == Connecting && Next(s, e).phase == Sending
  {
    hide Effect, Controlled, Reading, Next, Enabled, LedgerOf;
    if IsCompletion(e) {
      CompletionEffect(s, e);
      m := CompletionIsMove(s, Next(s, e));
    } else {
      m := OtherIsMove(s, e);
    }
  }

  // --------------------------------------------------------------- frames

  /** The bytes of a job's frame, by what was posted. */
  function FrameOf(posted: seq<Packables>, job: Job): seq<byte> {
    Frame(ElementsOf(posted, job))
  }

  /** The frame of a posted message is that message's, and any other job goes out as the empty frame. */
  lemma FrameOfJob(posted: seq<Packables>, job: Job)
    ensures FrameOf(posted, job)
         == if job.Posted? && job.id < |posted| then Frame(posted[job.id]) else [0x01, 0x00, 0x00]
  {
    assert [PROTOCOL] + Put16(0) + [] == [0x01, 0x00, 0x00];
  }

  ghost predicate SameFrames(store: seq<Packables>, posted: seq<Packables>) {
    |store| == |posted| && forall i :: 0 <= i < |store| ==> Frame(store[i]) == Frame(posted[i])
  }

  ghost predicate FramesAsPosted(log: seq<Entry>, posted: seq<Packables>) {
    forall i :: 0 <= i < |log| && log[i].Sent? ==> log[i].frame == FrameOf(posted, log[i].job)
  }

  ghost predicate Faithful(s: State) {
    SameFrames(s.store, s.h.posted) && FramesAsPosted(s.h.log, s.h.posted)
  }

  lemma StoredSameFrames(store: seq<Packables>, posted: seq<Packables>, job: Job)
    requires SameFrames(store, posted)
    ensures SameFrames(Stored(store, job), posted)
    ensures Frame(ElementsOf(store, job)) == FrameOf(posted, job)
  {
    hide Frame, AllNormalized;
    if job.Posted? && job.id < |store| {
      SerializeAgain(store[job.id]);
    }
  }

  lemma FaithfulAfterAdvance(s: State, t: State)
    requires Faithful(s) && Advances(s, t)
    ensures Faithful(t)
  {
    hide Frame, Stored, Reading, SameFrames;
    if s.phase == Connecting {
      StoredSameFrames(s.store, s.h.posted, Front(s.queue));
    }
  }

  lemma FaithfulAfterCompletion(s: State, t: State)
    requires Faithful(s) && Effect(s, t)
    ensures Faithful(t)
  {
    hide Frame, Stored, Reading, SameFrames, Advances;
    if Advances(s, t) {
      FaithfulAfterAdvance(s, t);
    }
  }

  lemma FaithfulAfterPost(s: State, message: Packables)
    requires Faithful(s) && Numbered(s.h.log, Due(LedgerOf(s)), |s.h.posted|)
    ensures Faithful(Next(s, Post(message)))
  {
    hide Frame;
    var t := Next(s, Post(message));
    forall i | 0 <= i < |t.h.log| && t.h.log[i].Sent?
      ensures t.h.log[i].frame == FrameOf(t.h.posted, t.h.log[i].job)
    {
      assert ElementsOf(t.h.posted, t.h.log[i].job) == ElementsOf(s.h.posted, t.h.log[i].job);
    }
  }

  lemma FaithfulKept(s: State, e: Event)
    requires Controlled(s) && Reading(s) && Faithful(s) && Orderly(LedgerOf(s)) && Enabled(s, e)
    ensures Faithful(Next(s, e))
  {
    hide Effect, Frame;
    if IsCompletion(e) {
      CompletionEffect(s, e);
      FaithfulAfterCompletion(s, Next(s, e));
    } else if e.Post? {
      FaithfulAfterPost(s, e.message);
    }
  }

  // ----------------------------------------------------- reachable states

  ghost predicate Good(s: State) {
    && Controlled(s) && Reading(s) && Backing(s) && FewLost(s) && Faithful(s)
    && Accounted(LedgerOf(s)) && Orderly(LedgerOf(s))
  }

  lemma NothingLogged(log: seq<Entry>, due: seq<Job>)
    requires log == [] && due == []
    ensures WellOrdered(log) && Ahead(log, due, 0) && AcceptedIn(log) == []
  {
  }

  lemma EmptyLedger(l: Ledger)
    requires l == Ledger(0, [], [], [], [], [], [])
    ensures Accounted(l) && Orderly(l)
  {
    hide WellOrdered, Ahead;
    assert Line(l) == [] == Upto(0);
    assert Due(l) == [];
    NothingLogged(l.log, Due(l));
  }

  lemma GoodInitially()
    ensures Good(INITIAL)
  {
    hide Accounted, Orderly;
    DelayDoubles(0);
    EmptyLedger(LedgerOf(INITIAL));
  }

  lemma GoodKept(s: State, e: Event)
    requires Good(s) && Enabled(s, e)
    ensures Good(Next(s, e))
  {
    hide Next, Controlled, Reading, Backing, FewLost, Orderly, Accounted, FramesAsPosted;
    ControlledKept(s, e);
    ReadingKept(s, e);
    BackingKept(s, e);
    FewLostKept(s, e);
    FaithfulKept(s, e);
    var m := StepIsMove(s, e);
    AccountedKept(LedgerOf(s), m);
    OrderlyKept(LedgerOf(s), m);
  }

  lemma {:induction false} GoodAlways(s: State, events: seq<Event>)
    requires Good(s) && Legal(s, events)
    ensures Good(After(s, events))
    decreases |events|
  {
    hide Good, Next;
    if events != [] {
      GoodKept(s, events[0]);
      GoodAlways(Next(s, events[0]), events[1..]);
    }
  }

  /** The invariant of every run. */
  lemma Reachable(events: seq<Event>)
    requires Legal(INITIAL, events)
    ensures Good(After(INITIAL, events))
  {
    hide Good;
    GoodInitially();
    GoodAlways(INITIAL, events);
  }
}
