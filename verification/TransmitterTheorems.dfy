/** The promises of the transmitter over whole runs: nothing is lost, duplicated or reordered by failures and
    retries, every session ends, and the waits between failed sessions follow the backoff. */
module TransmitterTheorems {
  import opened BigEndian
  import opened Elements
  import opened Codec
  import opened Messages
  import opened Transmission
  import opened TransmitterSteps
  import opened TransmitterRuns
  import opened Ledger

  // --------------------------------------------------- events of a run

  /** The messages posted during a run, in order. */
  function PostedIn(events: seq<Event>): seq<Packables> {
    if events == [] then []
    else (if events[0].Post? then [events[0].message] else []) + PostedIn(events[1..])
  }

  function StopsIn(events: seq<Event>): nat {
    if events == [] then 0 else (if events[0].Stop? then 1 else 0) + StopsIn(events[1..])
  }

  function DropsIn(events: seq<Event>): nat {
    if events == [] then 0 else (if events[0].Drop? then 1 else 0) + DropsIn(events[1..])
  }

  lemma EffectOnHistory(s: State, t: State)
    requires Effect(s, t)
    ensures t.h.posted == s.h.posted && t.h.stops == s.h.stops && t.h.dropped == s.h.dropped
  {
    hide Frame, Stored, ElementsOf, Front, Rest, Reading, Longer, Answers, Ordinal, InFlight;
  }

  lemma StepHistory(s: State, e: Event)
    requires Good(s) && Enabled(s, e)
    ensures Next(s, e).h.posted == s.h.posted + (if e.Post? then [e.message] else [])
    ensures Next(s, e).h.stops <= s.h.stops + (if e.Stop? then 1 else 0)
    ensures !e.Drop? ==> Next(s, e).h.dropped == s.h.dropped
  {
    hide Effect, Backing, FewLost, Accounted, Orderly;
    if IsCompletion(e) {
      CompletionEffect(s, e);
      EffectOnHistory(s, Next(s, e));
    }
  }

  lemma {:induction false} RunHistory(s: State, events: seq<Event>)
    requires Good(s) && Legal(s, events)
    ensures After(s, events).h.posted == s.h.posted + PostedIn(events)
    ensures After(s, events).h.stops <= s.h.stops + StopsIn(events)
    ensures DropsIn(events) == 0 ==> After(s, events).h.dropped == s.h.dropped
    decreases |events|
  {
    hide Good, Next, Enabled;
    if events != [] {
      StepHistory(s, events[0]);
      GoodKept(s, events[0]);
      RunHistory(Next(s, events[0]), events[1..]);
    }
  }

  lemma Ended(events: seq<Event>)
    requires Legal(INITIAL, events)
    ensures var t := After(INITIAL, events);
            && Good(t) && t.h.posted == PostedIn(events) && t.h.stops <= StopsIn(events)
            && (DropsIn(events) == 0 ==> t.h.dropped == [])
  {
    hide Good, Next, Enabled, After, Legal;
    GoodInitially();
    Reachable(events);
    RunHistory(INITIAL, events);
    assert [] + PostedIn(events) == PostedIn(events);
  }

  // --------------------------------------------- conservation and order

  function Select(posted: seq<Packables>, ids: seq<nat>): seq<Packables>
    requires Below(ids, |posted|)
  {
    seq(|ids|, i requires 0 <= i < |ids| => posted[ids[i]])
  }

  /** Without stop and drop, whatever fails and however often: the messages confirmed, in flight and queued are,
      in this order, exactly the messages posted. */
  lemma FifoConservation(events: seq<Event>)
    requires Legal(INITIAL, events) && StopsIn(events) == 0 && DropsIn(events) == 0
    ensures var l := LedgerOf(After(INITIAL, events));
            && Line(l) == Upto(|PostedIn(events)|)
            && Select(PostedIn(events), Line(l)) == PostedIn(events)
  {
    hide Legal, Controlled, Reading, Backing, Faithful, Orderly, Line;
    Ended(events);
  }

  // ------------------------------------------------------------ losses

  /** A stop request that reaches a worker at work. */
  predicate Interrupts(s: State, e: Event) {
    e.Stop? && IsLive(s.worker) && !s.shutdown
  }

  /** The jobs that were in flight when such a stop was requested, stop by stop. */
  function InterruptedIn(s: State, events: seq<Event>): seq<Job>
    requires Legal(s, events)
    decreases |events|
  {
    if events == [] then []
    else (if Interrupts(s, events[0]) then InFlight(s) else []) + InterruptedIn(Next(s, events[0]), events[1..])
  }

  predicate BeingStopped(s: State) {
    s.shutdown || !IsLive(s.worker)
  }

  /** The job a stopped transmitter still holds. */
  function HeldOver(s: State): seq<Job> {
    if BeingStopped(s) then InFlight(s) else []
  }

  lemma NothingAfterStop(s: State, t: State)
    requires s.shutdown
    ensures !Advances(s, t) && !Fails(s, t) && !Succeeds(s, t)
  {
    hide Frame, Stored, Collects, Answers;
  }

  lemma FrozenByEffect(s: State, t: State)
    requires Controlled(s) && BeingStopped(s) && Effect(s, t)
    requires IsWaiting(s.phase) && s.pending == multiset{HandlerOf(s.phase)}
    ensures BeingStopped(t) && InFlight(t) == InFlight(s) && t.h.lost == s.h.lost
  {
    hide Advances, Fails, Succeeds;
    assert s.shutdown;
    assert !Advances(s, t) && !Fails(s, t) && !Succeeds(s, t) by { NothingAfterStop(s, t); }
  }

  lemma FrozenByOther(s: State, e: Event)
    requires Controlled(s) && BeingStopped(s) && Enabled(s, e) && !IsCompletion(e) && !e.WorkerBegin?
    ensures var t := Next(s, e);
            BeingStopped(t) && InFlight(t) == InFlight(s) && t.h.lost == s.h.lost
  {
  }

  /** While a stop takes effect, until the next worker begins, what is in flight stays there. */
  lemma FlightFrozen(s: State, e: Event)
    requires Good(s) && BeingStopped(s) && Enabled(s, e) && !e.WorkerBegin?
    ensures var t := Next(s, e);
            BeingStopped(t) && InFlight(t) == InFlight(s) && t.h.lost == s.h.lost
  {
    hide Reading, Backing, FewLost, Faithful, Accounted, Orderly, Effect, Next, Enabled;
    if IsCompletion(e) {
      CompletionEffect(s, e);
      FrozenByEffect(s, Next(s, e));
    } else {
      FrozenByOther(s, e);
    }
  }

  lemma EffectOnLosses(s: State, t: State)
    requires Effect(s, t)
    ensures t.h.lost == s.h.lost && t.worker == s.worker && t.shutdown == s.shutdown
  {
    hide Frame, Stored, ElementsOf, Front, Rest, Reading, Longer, Answers, Ordinal, InFlight;
  }

  lemma AtWorkByOther(s: State, e: Event)
    requires Controlled(s) && !BeingStopped(s) && Enabled(s, e) && !IsCompletion(e)
    ensures var t := Next(s, e);
            && t.h.lost == s.h.lost && BeingStopped(t) == Interrupts(s, e)
            && (Interrupts(s, e) ==> InFlight(t) == InFlight(s))
  {
  }

  lemma NothingLostAtWork(s: State, e: Event)
    requires Good(s) && !BeingStopped(s) && Enabled(s, e)
    ensures var t := Next(s, e);
            && t.h.lost == s.h.lost && BeingStopped(t) == Interrupts(s, e)
            && (Interrupts(s, e) ==> InFlight(t) == InFlight(s))
  {
    hide Reading, Backing, FewLost, Faithful, Accounted, Orderly, Effect, Next, Enabled;
    if IsCompletion(e) {
      CompletionEffect(s, e);
      EffectOnLosses(s, Next(s, e));
    } else {
      AtWorkByOther(s, e);
    }
  }

  /** The worker's begin gives up what is held over. */
  lemma BeginGivesUp(s: State)
    requires Good(s) && Enabled(s, WorkerBegin)
    ensures var t := Next(s, WorkerBegin);
            BeingStopped(s) && t.h.lost == s.h.lost + InFlight(s) && InFlight(t) == []
  {
    hide Reading, Backing, FewLost, Faithful, Accounted, Orderly;
  }

  lemma LossStep(s: State, e: Event)
    requires Good(s) && Enabled(s, e)
    ensures var t := Next(s, e);
            t.h.lost + HeldOver(t) == s.h.lost + HeldOver(s) + if Interrupts(s, e) then InFlight(s) else []
  {
    hide Good, Next, Enabled, InFlight;
    if !BeingStopped(s) {
      NothingLostAtWork(s, e);
    } else if e.WorkerBegin? {
      BeginGivesUp(s);
    } else {
      FlightFrozen(s, e);
    }
  }

  lemma {:induction false} LossesFrom(s: State, events: seq<Event>)
    requires Good(s) && Legal(s, events)
    ensures var t := After(s, events);
            t.h.lost + HeldOver(t) == s.h.lost + HeldOver(s) + InterruptedIn(s, events)
    decreases |events|
  {
    hide Good, Next, Enabled, InFlight, BeingStopped, Interrupts;
    if events != [] {
      var e := events[0];
      GoodKept(s, e);
      LossStep(s, e);
      LossesFrom(Next(s, e), events[1..]);
    }
  }

  /** What a run has lost, together with what it holds over from the last stop, is exactly what was in flight when
      a worker at work was stopped. */
  lemma LossesExactly(events: seq<Event>)
    requires Legal(INITIAL, events)
    ensures var t := After(INITIAL, events);
            t.h.lost + HeldOver(t) == InterruptedIn(INITIAL, events)
  {
    hide Good, Legal, After;
    GoodInitially();
    LossesFrom(INITIAL, events);
  }

  lemma {:induction false} FrozenThrough(s: State, events: seq<Event>)
    requires Good(s) && BeingStopped(s) && Legal(s, events) && forall i :: 0 <= i < |events| ==> !events[i].WorkerBegin?
    ensures var t := After(s, events);
            BeingStopped(t) && InFlight(t) == InFlight(s) && t.h.lost == s.h.lost
    decreases |events|
  {
    hide Good, Next, Enabled, InFlight, BeingStopped;
    if events != [] {
      GoodKept(s, events[0]);
      FlightFrozen(s, events[0]);
      FrozenThrough(Next(s, events[0]), events[1..]);
    }
  }

  lemma StopRequested(s: State)
    ensures Enabled(s, Stop) && (s.running ==> BeingStopped(Next(s, Stop)))
    ensures InFlight(Next(s, Stop)) == InFlight(s) && Next(s, Stop).h.lost == s.h.lost
  {
  }

  lemma IdsOfFlight(s: State)
    ensures |Ids(InFlight(s))| == if InFlight(s) != [] && s.sending.Posted? then 1 else 0
  {
    IdsOfOne(s.sending);
    IdsOfNone([]);
  }

  /** A stop requested in the state `s` loses exactly what is in flight in `s`: whatever happens up to the next
      begin of a worker, that begin gives up this and nothing else. So a stop loses a job exactly in the phases in
      which a message was taken and not yet answered, and a posted message exactly if that job is one. */
  lemma StopLosesExactly(before: seq<Event>, rest: seq<Event>)
    requires Legal(INITIAL, before) && Legal(Next(After(INITIAL, before), Stop), rest)
    requires forall i :: 0 <= i < |rest| ==> !rest[i].WorkerBegin?
    ensures var s := After(INITIAL, before);
            var r := After(Next(s, Stop), rest);
            s.running && Enabled(r, WorkerBegin) ==>
              var t := Next(r, WorkerBegin);
              && t.h.lost == s.h.lost + InFlight(s)
              && (|t.h.lost| == |s.h.lost| + 1 <==> s.phase in {Sending, ReceivingHeader, ReceivingConfirmation})
              && (|Ids(t.h.lost)| == |Ids(s.h.lost)| + 1 <==>
                    s.phase in {Sending, ReceivingHeader, ReceivingConfirmation} && s.sending.Posted?)
  {
    hide Good, Legal, After, Next, Enabled, Ids;
    Reachable(before);
    var s := After(INITIAL, before);
    StopRequested(s);
    var stopped := Next(s, Stop);
    if s.running && Enabled(After(stopped, rest), WorkerBegin) {
      GoodKept(s, Stop);
      FrozenThrough(stopped, rest);
      GoodAlways(stopped, rest);
      BeginGivesUp(After(stopped, rest));
      IdsConcat(s.h.lost, InFlight(s));
      IdsOfFlight(s);
    }
  }

  /** With drops and restarts: every message posted is in exactly one place, those not dropped or lost keep their
      order, each stop loses at most one message, and what is lost or held over is what the stops interrupted. */
  lemma Conservation(events: seq<Event>)
    requires Legal(INITIAL, events)
    ensures var t := After(INITIAL, events);
            var l := LedgerOf(t);
            && multiset(Upto(|PostedIn(events)|))
               == multiset(Ids(l.confirmed)) + multiset(Ids(l.flight)) + multiset(Ids(l.queue))
                  + multiset(Ids(l.dropped)) + multiset(Ids(l.lost))
            && Increasing(Line(l)) && Below(Line(l), |PostedIn(events)|)
            && |l.flight| <= 1 && |l.lost| <= StopsIn(events)
            && l.lost + HeldOver(t) == InterruptedIn(INITIAL, events)
  {
    hide Legal, Controlled, Reading, Backing, Faithful, Orderly;
    Ended(events);
    LossesExactly(events);
  }

  lemma {:induction false} FullLine(s: seq<nat>, n: nat, i: nat)
    requires Increasing(s) && Below(s, n) && |s| == n && i < n
    ensures i <= s[i]
  {
    if i > 0 {
      FullLine(s, n, i - 1);
      assert s[i - 1] < s[i];
    }
  }

  lemma {:induction false} NoRoomAbove(s: seq<nat>, n: nat, i: nat)
    requires Increasing(s) && Below(s, n) && |s| == n && i < n
    ensures s[i] <= i
    decreases n - i
  {
    if i + 1 < n {
      NoRoomAbove(s, n, i + 1);
      assert s[i] < s[i + 1];
    }
  }

  lemma LineIsFull(s: seq<nat>, n: nat)
    requires Increasing(s) && Below(s, n) && |s| == n
    ensures s == Upto(n)
  {
    forall i | 0 <= i < n
      ensures s[i] == Upto(n)[i]
    {
      FullLine(s, n, i);
      NoRoomAbove(s, n, i);
    }
  }

  lemma FullLedger(l: Ledger)
    requires Accounted(l)
    ensures Line(l) == Upto(l.posted) <==> Ids(l.dropped) == [] && Ids(l.lost) == []
  {
    hide Ids, Line;
    var d, g := Ids(l.dropped), Ids(l.lost);
    assert |multiset(Line(l)) + multiset(d) + multiset(g)| == |Line(l)| + |d| + |g|;
    assert |multiset(Upto(l.posted))| == l.posted;
    if d == [] && g == [] {
      LineIsFull(Line(l), l.posted);
    }
  }

  /** The exact condition: confirmed, in flight and queued are all the messages posted, in order, if and only if
      no posted message was dropped from the queue and none was given up after a stop. */
  lemma FifoExactly(events: seq<Event>)
    requires Legal(INITIAL, events)
    ensures var l := LedgerOf(After(INITIAL, events));
            Line(l) == Upto(|PostedIn(events)|) <==> Ids(l.dropped) == [] && Ids(l.lost) == []
  {
    hide Legal, Controlled, Reading, Backing, Faithful, Orderly, Accounted;
    Ended(events);
    FullLedger(LedgerOf(After(INITIAL, events)));
  }

  // -------------------------------------------------------- the wire log

  lemma ConfirmedIncreases(l: Ledger)
    requires Increasing(Line(l))
    ensures Increasing(Ids(l.confirmed))
  {
    var c, line := Ids(l.confirmed), Line(l);
    forall i, j | 0 <= i < j < |c|
      ensures c[i] < c[j]
    {
      assert line[i] == c[i] && line[j] == c[j];
    }
  }

  /** The frames handed to the socket in any run: messages in the order of posting, all attempts of one message
      next to each other and byte for byte what serializing the posted message gives, every answer directly after
      the frame it answers, and nothing of a message after the answer that accepts it. */
  lemma WireLog(events: seq<Event>)
    requires Legal(INITIAL, events)
    ensures var t := After(INITIAL, events);
            && WellOrdered(t.h.log) && FramesAsPosted(t.h.log, PostedIn(events))
            && AcceptedIn(t.h.log) == t.h.confirmed && Increasing(Ids(t.h.confirmed))
  {
    hide Legal, Controlled, Reading, Backing, WellOrdered, Ahead, FramesAsPosted, AcceptedIn;
    Ended(events);
    ConfirmedIncreases(LedgerOf(After(INITIAL, events)));
  }

  /** What goes over the wire for a message `factory` built, at the first attempt and at each repetition: a frame
      of bounded size with an exact length field, an MT message that parses back to the caller's values. */
  lemma FactoryOnTheWire(events: seq<Event>, i: nat, msgId: word32, imei: seq<byte>, payload: Option<seq<byte>>,
                         flags: word16, priority: word16)
    requires Legal(INITIAL, events)
    ensures var log := After(INITIAL, events).h.log;
            i < |log| && log[i].Sent? && log[i].job.Posted? ==>
              && log[i].job.id < |PostedIn(events)|
              && (Factory(msgId, imei, payload, flags, priority) == Built(PostedIn(events)[log[i].job.id]) ==>
                    var frame := log[i].frame;
                    && FRAME_HEADER <= |frame| <= FRAME_HEADER + MAX_MT_MESSAGE
                    && Get16(frame, 1) == |frame| - FRAME_HEADER
                    && CategoryOf(frame[FRAME_HEADER..]) == MtMessage
                    && Parse(frame[FRAME_HEADER..])
                       == Parsed([MtHeader(msgId, imei, Wire(flags / 0x100, flags % 0x100)),
                                  MtPayload(payload.value), MtPriority(Clamped(priority))]))
  {
    hide Legal, After, Controlled, Reading, Backing, WellOrdered, AcceptedIn, Accounted, Frame, CategoryOf, Parse,
      Get16;
    Ended(events);
    var t := After(INITIAL, events);
    if i < |t.h.log| && t.h.log[i].Sent? && t.h.log[i].job.Posted? {
      if Factory(msgId, imei, payload, flags, priority) == Built(PostedIn(events)[t.h.log[i].job.id]) {
        FactoryFrame(msgId, imei, payload, flags, priority);
      }
    }
  }

  /** The first message due is the first or the second job due. */
  lemma FirstDue(due: seq<Job>)
    requires DueInOrder(due) && Ids(due) != []
    ensures due[0].Posted? ==> Ids(due)[0] == due[0].id
    ensures !due[0].Posted? ==> |due| > 1 && due[1].Posted? && Ids(due)[0] == due[1].id
  {
    if !due[0].Posted? {
      assert Ids(due) == Ids(due[1..]);
      assert due[1..][0] == due[1];
    }
  }

  lemma LogWithinReach(l: Ledger)
    requires Orderly(l) && Line(l) == Upto(l.posted)
    ensures Ids(l.confirmed) == Upto(|Ids(l.confirmed)|)
    ensures forall i :: 0 <= i < |l.log| && l.log[i].job.Posted? ==> l.log[i].job.id <= |Ids(l.confirmed)|
  {
    hide WellOrdered, AcceptedIn;
    var c := |Ids(l.confirmed)|;
    assert Line(l)[..c] == Ids(l.confirmed);
    assert Upto(l.posted)[..c] == Upto(c);
    forall i | 0 <= i < |l.log| && l.log[i].job.Posted?
      ensures l.log[i].job.id <= c
    {
      IdsConcat(l.flight, l.queue);
      assert Line(l)[c..] == Ids(Due(l));
      if c < l.posted {
        assert Upto(l.posted)[c..][0] == c;
        FirstDue(Due(l));
      }
    }
  }

  /** Without stop and drop no message is skipped either: the messages accepted are the first ones posted, and
      none is sent before all earlier ones are accepted. */
  lemma NoneSkipped(events: seq<Event>)
    requires Legal(INITIAL, events) && StopsIn(events) == 0 && DropsIn(events) == 0
    ensures var t := After(INITIAL, events);
            && Ids(t.h.confirmed) == Upto(|Ids(t.h.confirmed)|)
            && forall i :: 0 <= i < |t.h.log| && t.h.log[i].job.Posted? ==> t.h.log[i].job.id <= |Ids(t.h.confirmed)|
  {
    hide Legal, Controlled, Reading, Backing, Faithful, WellOrdered, AcceptedIn;
    Ended(events);
    LogWithinReach(LedgerOf(After(INITIAL, events)));
  }

  // ------------------------------------------------------------- phases

  /** The event by which a handler runs. */
  predicate Runs(e: Event, k: Handler) {
    match k
    case OnResolve => e.Resolved?
    case OnConnect => e.Connected?
    case OnWrite => e.Written?
    case OnHeader => e.HeaderRead?
    case OnConfirmation => e.ConfirmationRead?
    case OnTimer => e.TimerFired?
  }

  /** No handler ever finds the machine in another phase than its own, and at most one is outstanding. What it
      does is one of five things: nothing after a stop, or the next operation, or a failure that puts the job back,
      or the end of the session with the job confirmed, or the end of the delay. */
  lemma OneHandler(events: seq<Event>, e: Event)
    requires Legal(INITIAL, events)
    ensures var t := After(INITIAL, events);
            Enabled(t, e) && IsCompletion(e) ==>
              && IsWaiting(t.phase) && t.pending == multiset{HandlerOf(t.phase)} && Runs(e, HandlerOf(t.phase))
              && (Halts(t, Next(t, e)) || Advances(t, Next(t, e)) || Fails(t, Next(t, e)) || Succeeds(t, Next(t, e))
                  || Expires(t, Next(t, e)))
  {
    hide Legal, After, Next, Reading, Backing, Faithful, Orderly, Accounted, Halts, Advances, Fails, Succeeds, Expires;
    Reachable(events);
    var t := After(INITIAL, events);
    if Enabled(t, e) && IsCompletion(e) {
      CompletionEffect(t, e);
    }
  }

  /** Without stop, exactly the handler of the phase is outstanding, none between sessions, and the service is
      kept alive exactly during sessions. */
  lemma PhasesWithoutStop(events: seq<Event>)
    requires Legal(INITIAL, events) && StopsIn(events) == 0
    ensures var t := After(INITIAL, events);
            && (t.phase == NotConnected || IsWaiting(t.phase))
            && t.pending == (if t.phase == NotConnected then multiset{} else multiset{HandlerOf(t.phase)})
            && (t.sentinel <==> t.phase != NotConnected)
  {
    hide Legal, Backing, Faithful, Orderly, Accounted;
    Ended(events);
  }

  lemma OtherEventsDoNotFail(s: State, e: Event)
    requires Enabled(s, e) && !IsCompletion(e) && s.phase != Error
    ensures Next(s, e).phase != Error
  {
  }

  /** On entering the error phase the machine sees a previous state of `eSending` or later exactly if a job was
      taken and not confirmed; that job and no other goes back to the front of the queue. */
  lemma ErrorReturnsTheJob(events: seq<Event>, e: Event)
    requires Legal(INITIAL, events)
    ensures var s := After(INITIAL, events);
            Enabled(s, e) && s.phase != Error && Next(s, e).phase == Error
            ==> && (Ordinal(Next(s, e).prev) >= Ordinal(Sending) <==> InFlight(s) != [])
                && Next(s, e).queue == InFlight(s) + s.queue
  {
    hide Legal, After, Next, Enabled, Backing, Faithful, Orderly, Accounted, Controlled, Reading, Answers;
    var s := After(INITIAL, events);
    Reachable(events);
    if Enabled(s, e) && s.phase != Error && Next(s, e).phase == Error {
      if IsCompletion(e) {
        CompletionEffect(s, e);
      } else {
        OtherEventsDoNotFail(s, e);
      }
    }
  }
}
