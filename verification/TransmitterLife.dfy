/** The life of the transmitter's worker and what its events decide: start and stop, what an outcome does to the
    session, drops, and the backoff as the events tell it. */
module TransmitterLife {
  import opened BigEndian
  import opened Codec
  import opened Messages
  import opened Transmission
  import opened TransmitterSteps
  import opened TransmitterRuns
  import opened TransmitterTheorems
  import opened TransmitterReplies
  import opened TransmitterExchanges
  import opened Ledger

  // ------------------------------------------------------------ the stop

  predicate IsWorkerStep(e: Event) {
    e.WorkerBegin? || e.WorkerCheck? || e.WorkerWake? || e.WorkerKick?
  }

  function WorkerStepsIn(events: seq<Event>): nat {
    if events == [] then 0 else (if IsWorkerStep(events[0]) then 1 else 0) + WorkerStepsIn(events[1..])
  }

  /** The steps a worker that is told to stop still makes at most. */
  function StepsLeft(w: Worker): nat {
    match w
    case Stopped => 0
    case Checking => 1
    case Woken => 2
    case Spawned => 2
    case Waiting => 3
  }

  predicate Ending(s: State) {
    s.shutdown && (s.running <==> s.worker != Stopped) && (s.worker == Stopped ==> !s.sentinel)
  }

  lemma StopIsEffective(s: State)
    requires Good(s) && s.running
    ensures Enabled(s, Stop) && Ending(Next(s, Stop)) && Next(s, Stop).running
  {
    hide Reading, Backing, FewLost, Faithful, Accounted, Orderly;
  }

  lemma EndingByEffect(s: State, t: State)
    requires Ending(s) && Effect(s, t)
    ensures Ending(t) && t.worker == s.worker
  {
    hide Advances, Fails, Succeeds, Collects;
    NothingAfterStop(s, t);
  }

  lemma EndingByOther(s: State, e: Event)
    requires Controlled(s) && Ending(s) && Enabled(s, e) && !e.Start? && !IsCompletion(e)
    ensures var t := Next(s, e);
            Ending(t) && StepsLeft(t.worker) + (if IsWorkerStep(e) then 1 else 0) <= StepsLeft(s.worker)
  {
  }

  lemma EndingStep(s: State, e: Event)
    requires Good(s) && Ending(s) && Enabled(s, e) && !e.Start?
    ensures var t := Next(s, e);
            Ending(t) && StepsLeft(t.worker) + (if IsWorkerStep(e) then 1 else 0) <= StepsLeft(s.worker)
  {
    hide Controlled, Reading, Backing, FewLost, Faithful, Accounted, Orderly, Effect, Next, Enabled, Ending, StepsLeft;
    if IsCompletion(e) {
      CompletionEffect(s, e);
      EndingByEffect(s, Next(s, e));
    } else {
      EndingByOther(s, e);
    }
  }

  lemma {:induction false} EndingRun(s: State, events: seq<Event>)
    requires Good(s) && Ending(s) && Legal(s, events) && forall i :: 0 <= i < |events| ==> !events[i].Start?
    ensures var t := After(s, events);
            Ending(t) && StepsLeft(t.worker) + WorkerStepsIn(events) <= StepsLeft(s.worker)
    decreases |events|
  {
    hide Good, Next, Enabled, Ending, StepsLeft, IsWorkerStep;
    if events != [] {
      GoodKept(s, events[0]);
      EndingStep(s, events[0]);
      EndingRun(Next(s, events[0]), events[1..]);
    }
  }

  lemma WorkerActs(s: State)
    requires Ending(s)
    ensures s.running ==> StepsLeft(s.worker) > 0
                          && exists e :: IsWorkerStep(e) && Enabled(s, e)
    ensures StepsLeft(s.worker) <= 3
  {
    if s.running {
      var e := match s.worker
        case Spawned => WorkerBegin
        case Checking => WorkerCheck
        case Waiting => WorkerWake(true)
        case Woken => WorkerKick;
      assert IsWorkerStep(e) && Enabled(s, e);
    }
  }

  /** A stop ends the worker. Whatever happens after the request, short of a new start, the worker can act until it
      has ended, and it makes at most three steps more; then nothing runs and the service is not kept alive. So the
      `join` in `stop` returns. */
  lemma StopEnds(before: seq<Event>, rest: seq<Event>)
    requires Legal(INITIAL, before) && After(INITIAL, before).running
    requires Enabled(After(INITIAL, before), Stop) && Legal(Next(After(INITIAL, before), Stop), rest)
    requires forall i :: 0 <= i < |rest| ==> !rest[i].Start?
    ensures var t := After(Next(After(INITIAL, before), Stop), rest);
            && t.shutdown && WorkerStepsIn(rest) <= 3
            && (t.running ==> WorkerStepsIn(rest) < 3 && exists e :: IsWorkerStep(e) && Enabled(t, e))
            && (!t.running ==> t.worker == Stopped && !t.sentinel)
  {
    hide Good, Legal, After, Next, Enabled, StepsLeft, WorkerStepsIn, IsWorkerStep;
    Reachable(before);
    var s := After(INITIAL, before);
    StopIsEffective(s);
    GoodKept(s, Stop);
    EndingRun(Next(s, Stop), rest);
    WorkerActs(Next(s, Stop));
    WorkerActs(After(Next(s, Stop), rest));
  }

  // ----------------------------------------------------------- the start

  /** The worker was started and has not begun. */
  ghost predicate Starting(s: State, u: State) {
    && u.running && !u.shutdown && u.worker == Spawned && u.pending == multiset{}
    && s.queue <= u.queue && u.h.confirmed == s.h.confirmed
  }

  lemma StartingStep(s: State, u: State, e: Event)
    requires Starting(s, u) && Enabled(u, e) && !e.Stop? && !e.Drop? && !e.WorkerBegin?
    ensures Starting(s, Next(u, e))
  {
  }

  lemma {:induction false} StartingRun(s: State, u: State, events: seq<Event>)
    requires Starting(s, u) && Legal(u, events)
    requires forall i :: 0 <= i < |events| ==> !events[i].Stop? && !events[i].Drop? && !events[i].WorkerBegin?
    ensures Starting(s, After(u, events))
    decreases |events|
  {
    hide Next, Enabled, Starting;
    if events != [] {
      StartingStep(s, u, events[0]);
      StartingRun(s, Next(u, events[0]), events[1..]);
    }
  }

  lemma WorkerBegins(s: State, u: State)
    requires Starting(s, u)
    ensures Enabled(u, WorkerBegin)
    ensures var t := Next(u, WorkerBegin);
            && t.running && IsLive(t.worker) && !t.shutdown && t.phase == NotConnected && t.prev == NotConnected
            && t.errDelay == 1
            && s.queue <= t.queue && t.h.confirmed == s.h.confirmed && (s.queue != [] ==> HasWork(t))
  {
  }

  lemma Starts(s: State)
    requires Good(s) && !s.running && Enabled(s, Start)
    ensures Starting(s, Next(s, Start))
  {
    hide Reading, Backing, FewLost, Faithful, Accounted, Orderly;
  }

  /** A start makes a worker that serves the queue, the first time and after a stop: whatever is posted before the
      worker begins, it can begin, and then it is between sessions, not told to stop, with the delay at its smallest
      and everything still queued. */
  lemma StartServes(before: seq<Event>, between: seq<Event>)
    requires Legal(INITIAL, before) && !After(INITIAL, before).running && Enabled(After(INITIAL, before), Start)
    requires Legal(Next(After(INITIAL, before), Start), between)
    requires forall i :: 0 <= i < |between| ==> !between[i].Stop? && !between[i].Drop? && !between[i].WorkerBegin?
    ensures var s := After(INITIAL, before);
            var u := After(Next(s, Start), between);
            && Enabled(u, WorkerBegin)
            && var t := Next(u, WorkerBegin);
               && t.running && IsLive(t.worker) && !t.shutdown && t.phase == NotConnected && t.prev == NotConnected
               && t.errDelay == 1 && s.queue <= t.queue && (s.queue != [] ==> HasWork(t))
  {
    hide Good, Legal, After, Next, Enabled, HasWork, Starting, IsLive;
    Reachable(before);
    var s := After(INITIAL, before);
    Starts(s);
    StartingRun(s, Next(s, Start), between);
    WorkerBegins(s, After(Next(s, Start), between));
  }

  /** A start of a running transmitter and a stop of one that does not run change nothing. */
  lemma Idle(s: State)
    ensures s.running ==> Enabled(s, Start) && Next(s, Start) == s
    ensures !s.running ==> Enabled(s, Stop) && Next(s, Stop) == s
  {
  }

  // ----------------------------------------------------------- the drop

  /** A drop empties the queue, into the record of what was dropped, and touches nothing else. */
  lemma DropEmpties(s: State)
    ensures Enabled(s, Drop)
    ensures var t := Next(s, Drop);
            && t.queue == [] && t.h.dropped == s.h.dropped + s.queue && InFlight(t) == InFlight(s)
            && t == s.(queue := [], h := s.h.(dropped := t.h.dropped))
  {
  }

  function Count(jobs: seq<Job>, id: nat): nat {
    multiset(Ids(jobs))[id]
  }

  lemma {:induction false} CountsIds(jobs: seq<Job>, id: nat)
    ensures Posted(id) in jobs <==> Count(jobs, id) > 0
  {
    if jobs != [] {
      CountsIds(jobs[1..], id);
      assert jobs == [jobs[0]] + jobs[1..];
    }
  }

  lemma UptoOnce(n: nat, id: nat)
    ensures multiset(Upto(n))[id] == if id < n then 1 else 0
  {
    if n > 0 {
      UptoOnce(n - 1, id);
      assert Upto(n) == Upto(n - 1) + [n - 1];
    }
  }

  lemma CountedOnce(l: Ledger, id: nat)
    requires Accounted(l)
    ensures Count(l.confirmed, id) + Count(l.flight, id) + Count(l.queue, id) + Count(l.dropped, id)
            + Count(l.lost, id) <= 1
  {
    hide Ids, Upto;
    UptoOnce(l.posted, id);
    assert multiset(Line(l)) == multiset(Ids(l.confirmed)) + multiset(Ids(l.flight)) + multiset(Ids(l.queue));
    assert (multiset(Line(l)) + multiset(Ids(l.dropped)) + multiset(Ids(l.lost)))[id] <= 1;
  }

  /** A posted message is in one place. */
  lemma OnePlace(l: Ledger, id: nat)
    requires Accounted(l)
    ensures Posted(id) in l.dropped + l.lost ==> Posted(id) !in l.confirmed + l.flight + l.queue
    ensures Posted(id) !in l.dropped || Posted(id) !in l.lost
  {
    hide Ids, Accounted, Count;
    CountedOnce(l, id);
    CountsIds(l.confirmed, id);
    CountsIds(l.flight, id);
    CountsIds(l.queue, id);
    CountsIds(l.dropped, id);
    CountsIds(l.lost, id);
  }

  lemma HistoryOnlyGrows(s: State, e: Event)
    requires Good(s) && Enabled(s, e)
    ensures s.h.dropped <= Next(s, e).h.dropped && s.h.confirmed <= Next(s, e).h.confirmed
  {
    hide Reading, Backing, FewLost, FramesAsPosted, Frame, Accounted, Orderly, Next, Enabled;
    var m := StepIsMove(s, e);
  }

  lemma {:induction false} HistoryOnlyGrowsIn(s: State, events: seq<Event>)
    requires Good(s) && Legal(s, events)
    ensures Good(After(s, events))
    ensures s.h.dropped <= After(s, events).h.dropped && s.h.confirmed <= After(s, events).h.confirmed
    decreases |events|
  {
    hide Good, Next, Enabled;
    if events != [] {
      GoodKept(s, events[0]);
      HistoryOnlyGrows(s, events[0]);
      HistoryOnlyGrowsIn(Next(s, events[0]), events[1..]);
    }
  }

  lemma AccountedIfGood(s: State)
    requires Good(s)
    ensures Accounted(LedgerOf(s))
  {
    hide Controlled, Reading, Backing, FewLost, Faithful, Accounted, Orderly;
  }

  /** A dropped message is gone: whatever happens later, it is never queued, in flight or confirmed again. */
  lemma DropIsFinal(before: seq<Event>, rest: seq<Event>, id: nat)
    requires Legal(INITIAL, before) && Legal(After(INITIAL, before), [Drop] + rest)
    requires Posted(id) in After(INITIAL, before).queue
    ensures var t := After(After(INITIAL, before), [Drop] + rest);
            Posted(id) in t.h.dropped && Posted(id) !in t.h.confirmed + InFlight(t) + t.queue
  {
    hide Good, Legal, After, Next, Enabled, InFlight, Accounted;
    Reachable(before);
    var s := After(INITIAL, before);
    DropEmpties(s);
    BeginsWith(s, [Drop] + rest);
    assert ([Drop] + rest)[1..] == rest;
    GoodKept(s, Drop);
    HistoryOnlyGrowsIn(Next(s, Drop), rest);
    var t := After(Next(s, Drop), rest);
    var i :| 0 <= i < |s.queue| && s.queue[i] == Posted(id);
    assert Next(s, Drop).h.dropped[|s.h.dropped| + i] == t.h.dropped[|s.h.dropped| + i] == Posted(id);
    AccountedIfGood(t);
    OnePlace(LedgerOf(t), id);
  }

  // ------------------------------------------- what an outcome decides

  /** In a session that was not told to stop the operation of the phase can succeed and can fail; between sessions
      nothing is outstanding. A post, a drop and a stop can happen at any time, a start when no handler is left over. */
  ghost predicate OutcomesPossible(t: State) {
    && (forall message :: Enabled(t, Post(message))) && Enabled(t, Drop) && Enabled(t, Stop)
    && (t.running || t.pending == multiset{} ==> Enabled(t, Start))
    && (IsLive(t.worker) && !t.shutdown ==>
          match t.phase
          case Resolving => Enabled(t, Resolved(Done)) && Enabled(t, Resolved(Erred))
          case Connecting => Enabled(t, Connected(Done)) && Enabled(t, Connected(Erred))
          case Sending => Enabled(t, Written(Done)) && Enabled(t, Written(Erred))
          case ReceivingHeader =>
            && Enabled(t, HeaderRead(ReadErred))
            && forall bytes: seq<byte> :: |bytes| >= 3 ==> Enabled(t, HeaderRead(Received(bytes)))
          case ReceivingConfirmation =>
            && Enabled(t, ConfirmationRead(ReadErred))
            && forall bytes: seq<byte> :: |bytes| >= 1 ==> Enabled(t, ConfirmationRead(Received(bytes)))
          case Error => Enabled(t, TimerFired(false))
          case _ => t.phase == NotConnected && forall e :: IsCompletion(e) ==> !Enabled(t, e))
  }

  lemma PossibleIfControlled(t: State)
    requires Controlled(t)
    ensures OutcomesPossible(t)
  {
  }

  /** What can happen in every reachable state. */
  lemma EveryOutcomeCanHappen(events: seq<Event>)
    requires Legal(INITIAL, events)
    ensures OutcomesPossible(After(INITIAL, events))
  {
    hide Legal, After, Controlled, Reading, Backing, FewLost, Faithful, Accounted, Orderly, OutcomesPossible;
    Reachable(events);
    PossibleIfControlled(After(INITIAL, events));
  }

  /** What a failed session leaves: the phase, the one wait added, the job put back and, for a negative answer, the
      line in the log. */
  ghost predicate FailsWith(s: State, t: State, prev: Phase, answers: seq<Entry>) {
    && t.phase == Error && t.prev == prev && t.queue == InFlight(s) + s.queue && t.pending == multiset{OnTimer}
    && t.errDelay == s.errDelay && t.h.log == s.h.log + answers && t.h.confirmed == s.h.confirmed
    && t.h.waits == s.h.waits + [100 * s.errDelay] && t.store == s.store && t.worker == s.worker
    && t.sentinel == s.sentinel && t.running == s.running && t.shutdown == s.shutdown && t.h.posted == s.h.posted
  }

  /** Nothing happens but that the handler has run. */
  ghost predicate RunsOnly(s: State, t: State, buf: Option<seq<byte>>) {
    t == s.(pending := multiset{}, buf := buf)
  }

  /** What the reply, as far as it was read, does to the session. */
  ghost predicate DecidesOn(s: State, t: State, stream: seq<byte>)
    requires |stream| >= 3
  {
    match ReplyOf(stream)
    case Incomplete =>
      t == s.(phase := ReceivingConfirmation, prev := s.phase, pending := multiset{OnConfirmation},
              buf := Some(stream[3..]), confirmationLength := Get16(stream, 1), h := s.h.(received := stream))
    case Faulty => FailsWith(s, t, if stream[0] != 1 then ReceivingHeader else ProcessingConfirmation, [])
    case Status(v) =>
      if v < 0 then FailsWith(s, t, ProcessingConfirmation, [Answered(s.sending, v)])
      else t == s.(phase := NotConnected, prev := Success, pending := multiset{}, buf := None, confirmationLength := 0,
                   sentinel := false, errDelay := 1,
                   h := s.h.(log := s.h.log + [Answered(s.sending, v)], received := stream,
                             confirmed := s.h.confirmed + [s.sending], waits := []))
  }

  /** What the completion `e` does in `s`, outcome by outcome. */
  ghost predicate Decides(s: State, e: Event, t: State) {
    match e
    case Resolved(outcome) =>
      if s.shutdown then RunsOnly(s, t, s.buf)
      else if outcome == Done then t == s.(phase := Connecting, prev := Resolving, pending := multiset{OnConnect})
      else FailsWith(s, t, Resolving, [])
    case Connected(outcome) =>
      if s.shutdown then RunsOnly(s, t, s.buf)
      else if outcome == Done then
        var job := if s.queue == [] then Placeholder else s.queue[0];
        var frame := FrameOf(s.h.posted, job);
        && t.phase == Sending && t.prev == Connecting && t.sending == job && t.buf == Some(frame)
        && t.queue == (if s.queue == [] then [] else s.queue[1..]) && t.pending == multiset{OnWrite}
        && t.h == s.h.(log := s.h.log + [Sent(job, frame)]) && t.errDelay == s.errDelay && t.worker == s.worker
        && t.sentinel == s.sentinel && t.running == s.running && !t.shutdown
        && t.store == (if job.Posted? && job.id < |s.store| then s.store[job.id := AllNormalized(s.store[job.id])]
                       else s.store)
      else FailsWith(s, t, Connecting, [])
    case Written(outcome) =>
      if s.shutdown then RunsOnly(s, t, if outcome == Aborted then s.buf else None)
      else if outcome == Done then
        t == s.(phase := ReceivingHeader, prev := Sending, pending := multiset{OnHeader}, buf := Some([]),
                h := s.h.(received := []))
      else FailsWith(s, t, Sending, []) && t.buf == None
    case HeaderRead(r) =>
      if s.shutdown then RunsOnly(s, t, s.buf)
      else if r.Received? then |r.bytes| >= 3 && DecidesOn(s, t, r.bytes)
      else FailsWith(s, t, ReceivingHeader, [])
    case ConfirmationRead(r) =>
      if s.shutdown then RunsOnly(s, t, s.buf)
      else if r.Received? then |s.h.received + r.bytes| >= 3 && DecidesOn(s, t, s.h.received + r.bytes)
      else FailsWith(s, t, ReceivingConfirmation, [])
    case TimerFired(aborted) =>
      if aborted then RunsOnly(s, t, s.buf)
      else t == s.(phase := NotConnected, prev := Error, pending := multiset{}, buf := None, confirmationLength := 0,
                   sentinel := false, errDelay := if s.errDelay < 64 then 2 * s.errDelay else s.errDelay)
    case _ => true
  }

  lemma FailsSo(s: State, c: State, answers: seq<Entry>)
    requires c == s.(prev := c.prev, buf := c.buf, confirmationLength := c.confirmationLength, pending := multiset{},
                     h := s.h.(log := s.h.log + answers, received := c.h.received))
    requires InFlight(s) == if Ordinal(c.prev) >= Ordinal(Sending) then [s.sending] else []
    ensures FailsWith(s, EnterError(c), c.prev, answers) && EnterError(c).buf == c.buf
  {
    assert multiset{} + multiset{OnTimer} == multiset{OnTimer};
    assert [] + s.queue == s.queue;
  }

  lemma ReadingDecides(s: State, c: State, stream: seq<byte>)
    requires !s.shutdown && IsReading(s) && |stream| >= 3 && stream[0] == 1
    requires c == s.(prev := s.phase, buf := Some(stream[3..]), confirmationLength := Get16(stream, 1),
                     pending := multiset{}, h := s.h.(received := stream))
    ensures DecidesOn(s, EnterReceivingConfirmation(c), stream)
  {
    hide CategoryOf, StatusOf, ParseConfirmation, FailsWith, EnterError;
    var n: int := c.confirmationLength;
    if |stream| < 3 + n {
      assert multiset{} + multiset{OnConfirmation} == multiset{OnConfirmation};
    } else {
      var body := Bytes(c.buf)[..n];
      assert body == stream[3..3 + n];
      var p := c.(prev := ProcessingConfirmation);
      assert s.h.log + [] == s.h.log;
      if !Accepts(body) {
        FailsSo(s, p, []);
      } else {
        var answer := Answered(s.sending, StatusOf(ParseConfirmation(body).es));
        if answer.status < 0 {
          FailsSo(s, p.(buf := Some(Bytes(c.buf)[n..]), h := p.h.(log := s.h.log + [answer])), [answer]);
        }
      }
    }
  }

  lemma BadProtocolDecides(s: State, t: State, stream: seq<byte>)
    requires |stream| >= 3 && stream[0] != 1 && FailsWith(s, t, ReceivingHeader, [])
    ensures DecidesOn(s, t, stream)
  {
    hide FailsWith;
  }

  lemma NothingToDecide(s: State, e: Event, t: State)
    requires !IsCompletion(e)
    ensures Decides(s, e, t)
  {
  }

  lemma HeaderDecidesAll(s: State, r: Reception)
    requires Controlled(s) && Enabled(s, HeaderRead(r))
    ensures Decides(s, HeaderRead(r), NextHeaderRead(s, r))
  {
    hide Controlled, Complete, EnterReceivingConfirmation, FailsWith, EnterError, DecidesOn;
    Alone(s, OnHeader);
    var c := Complete(s, OnHeader);
    assert s.h.log + [] == s.h.log;
    if !s.shutdown {
      if r.Received? {
        var d := c.(prev := ReceivingHeader, buf := Some(r.bytes[3..]), h := c.h.(received := r.bytes));
        if r.bytes[0] == 1 {
          ReadingDecides(s, d.(confirmationLength := Get16(r.bytes, 1)), r.bytes);
        } else {
          FailsSo(s, d, []);
          BadProtocolDecides(s, EnterError(d), r.bytes);
        }
      } else {
        FailsSo(s, c.(prev := ReceivingHeader), []);
      }
    }
  }

  lemma ConfirmationDecidesAll(s: State, r: Reception)
    requires Controlled(s) && Reading(s) && Enabled(s, ConfirmationRead(r))
    ensures Decides(s, ConfirmationRead(r), NextConfirmationRead(s, r))
  {
    hide Controlled, Complete, EnterReceivingConfirmation, FailsWith, EnterError, DecidesOn;
    Alone(s, OnConfirmation);
    var c := Complete(s, OnConfirmation);
    assert s.h.log + [] == s.h.log;
    if !s.shutdown {
      if r.Received? {
        var stream := s.h.received + r.bytes;
        assert stream[3..] == s.h.received[3..] + r.bytes;
        var d := c.(prev := ReceivingConfirmation, buf := Some(stream[3..]), h := c.h.(received := stream));
        ReadingDecides(s, d, stream);
      } else {
        FailsSo(s, c.(prev := ReceivingConfirmation), []);
      }
    }
  }

  lemma StoredInPlace(store: seq<Packables>, job: Job)
    ensures Stored(store, job)
         == if job.Posted? && job.id < |store| then store[job.id := AllNormalized(store[job.id])] else store
  {
  }

  lemma ConnectedDecides(s: State, outcome: Outcome)
    requires Controlled(s) && Faithful(s) && Enabled(s, Connected(outcome))
    ensures Decides(s, Connected(outcome), NextConnected(s, outcome))
  {
    hide Controlled, Complete, FailsWith, EnterError, Frame, Stored, SameFrames, FramesAsPosted;
    Alone(s, OnConnect);
    var c := Complete(s, OnConnect);
    assert s.h.log + [] == s.h.log;
    assert multiset{} + multiset{OnWrite} == multiset{OnWrite};
    StoredSameFrames(s.store, s.h.posted, Front(s.queue));
    StoredInPlace(s.store, Front(s.queue));
    if !s.shutdown && outcome == Erred {
      FailsSo(s, c.(prev := Connecting), []);
    }
  }

  lemma ResolvedDecides(s: State, outcome: Outcome)
    requires Controlled(s) && Enabled(s, Resolved(outcome))
    ensures Decides(s, Resolved(outcome), NextResolved(s, outcome))
  {
    hide Controlled, Complete, FailsWith, EnterError, DecidesOn;
    Alone(s, OnResolve);
    assert s.h.log + [] == s.h.log;
    assert multiset{} + multiset{OnConnect} == multiset{OnConnect};
    if !s.shutdown && outcome == Erred {
      FailsSo(s, Complete(s, OnResolve).(prev := Resolving), []);
    }
  }

  lemma WrittenDecides(s: State, outcome: Outcome)
    requires Controlled(s) && Enabled(s, Written(outcome))
    ensures Decides(s, Written(outcome), NextWritten(s, outcome))
  {
    hide Controlled, Complete, FailsWith, EnterError, DecidesOn;
    Alone(s, OnWrite);
    assert s.h.log + [] == s.h.log;
    assert multiset{} + multiset{OnHeader} == multiset{OnHeader};
    if !s.shutdown && outcome == Erred {
      FailsSo(s, Complete(s, OnWrite).(prev := Sending, buf := None), []);
    }
  }

  lemma TimerDecides(s: State, aborted: bool)
    requires Controlled(s) && Enabled(s, TimerFired(aborted))
    ensures Decides(s, TimerFired(aborted), NextTimer(s, aborted))
  {
    hide Controlled, Complete, FailsWith, DecidesOn;
    Alone(s, OnTimer);
  }

  /** What each completion does, outcome by outcome, in every reachable state: after a stop nothing; on success the
      next operation; on an error, a wrong protocol number or a reply that is no confirmation the error phase with
      the job put back and one wait; on a negative answer the same with the answer logged; on an accepting answer
      the end of the session with the delay at its smallest; and after the delay a doubled one. */
  lemma OutcomeDecides(events: seq<Event>, e: Event)
    requires Legal(INITIAL, events)
    ensures var s := After(INITIAL, events);
            Enabled(s, e) ==> Decides(s, e, Next(s, e))
  {
    hide Legal, After, Controlled, Reading, Backing, FewLost, FramesAsPosted, SameFrames, Accounted, Orderly, Decides,
      NextConnected, NextHeaderRead, NextConfirmationRead, NextResolved, NextWritten, NextTimer;
    Reachable(events);
    var s := After(INITIAL, events);
    if Enabled(s, e) {
      match e
      case Connected(outcome) => ConnectedDecides(s, outcome);
      case HeaderRead(r) => HeaderDecidesAll(s, r);
      case ConfirmationRead(r) => ConfirmationDecidesAll(s, r);
      case Resolved(outcome) => ResolvedDecides(s, outcome);
      case Written(outcome) => WrittenDecides(s, outcome);
      case TimerFired(aborted) => TimerDecides(s, aborted);
      case _ => NothingToDecide(s, e, Next(s, e));
    }
  }

  // ------------------------------------------------- backoff by events

  /** The failures in a row as the events tell them: one more when the error phase is entered, none after a begin of
      the worker or a confirmation. */
  function FailuresNext(s: State, n: nat, e: Event): nat
    requires Enabled(s, e)
  {
    var t := Next(s, e);
    if e.WorkerBegin? || |t.h.confirmed| > |s.h.confirmed| then 0
    else if t.phase == Error && s.phase != Error then n + 1
    else n
  }

  function FailuresIn(s: State, n: nat, events: seq<Event>): nat
    requires Legal(s, events)
    decreases |events|
  {
    if events == [] then n else FailuresIn(Next(s, events[0]), FailuresNext(s, n, events[0]), events[1..])
  }

  lemma WaitsByEffect(s: State, t: State)
    requires Effect(s, t) && IsWaiting(s.phase)
    ensures |t.h.waits| == if |t.h.confirmed| > |s.h.confirmed| then 0
                           else if t.phase == Error && s.phase != Error then |s.h.waits| + 1
                           else |s.h.waits|
  {
    hide Frame, Stored, ElementsOf, Front, Rest, Reading, Longer, Answers;
  }

  lemma WaitsByOther(s: State, e: Event)
    requires Controlled(s) && Enabled(s, e) && !IsCompletion(e)
    ensures |Next(s, e).h.waits| == FailuresNext(s, |s.h.waits|, e)
  {
    hide HandlerOf;
  }

  lemma WaitsStep(s: State, e: Event)
    requires Good(s) && Enabled(s, e)
    ensures |Next(s, e).h.waits| == FailuresNext(s, |s.h.waits|, e)
  {
    hide Controlled, Reading, Backing, FewLost, Faithful, Accounted, Orderly, Effect, Next, Enabled;
    if IsCompletion(e) {
      CompletionEffect(s, e);
      WaitsByEffect(s, Next(s, e));
    } else {
      WaitsByOther(s, e);
    }
  }

  lemma {:induction false} WaitsRun(s: State, events: seq<Event>)
    requires Good(s) && Legal(s, events)
    ensures |After(s, events).h.waits| == FailuresIn(s, |s.h.waits|, events)
    decreases |events|
  {
    hide Good, Next, Enabled, FailuresNext;
    if events != [] {
      GoodKept(s, events[0]);
      WaitsStep(s, events[0]);
      WaitsRun(Next(s, events[0]), events[1..]);
    }
  }

  lemma DelayTable(n: nat)
    ensures Delay(n) == [1, 2, 4, 8, 16, 32, 64][if n < 6 then n else 6]
  {
    assert Power2(5) == 32 && Power2(4) == 16 && Power2(3) == 8 && Power2(2) == 4 && Power2(1) == 2 && Power2(0) == 1;
    assert n < 6 ==> n in {0, 1, 2, 3, 4, 5};
  }

  /** The delay in every state, by the failures in a row since the last begin of the worker or confirmation: while
      the n-th failure is waited out, the smaller of 2^(n-1) and 64, otherwise the smaller of 2^n and 64. */
  lemma BackoffByEvents(events: seq<Event>)
    requires Legal(INITIAL, events)
    ensures var t, n := After(INITIAL, events), FailuresIn(INITIAL, 0, events);
            && |t.h.waits| == n && (t.phase == Error ==> n >= 1)
            && var k := if t.phase == Error then n - 1 else n;
               t.errDelay == [1, 2, 4, 8, 16, 32, 64][if k < 6 then k else 6]
  {
    hide Legal, After, Controlled, Reading, FewLost, Faithful, Accounted, Orderly, Delay, FailuresIn;
    GoodInitially();
    WaitsRun(INITIAL, events);
    Reachable(events);
    var t := After(INITIAL, events);
    DelayTable(if t.phase == Error then |t.h.waits| - 1 else |t.h.waits|);
  }
}
