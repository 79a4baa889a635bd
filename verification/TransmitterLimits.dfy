/** Where the promises of the transmitter end: stops, and empty messages sent for lack of a job. */
module TransmitterLimits {
  import opened Messages
  import opened Transmission
  import opened TransmitterSteps
  import opened TransmitterRuns
  import opened TransmitterTheorems
  import opened TransmitterExchanges
  import opened Ledger

  // -------------------------------------------------------- empty messages

  /** The transmitter connects and finds no job: the moment an empty message is made. */
  predicate TakesNothing(s: State, e: Event) {
    e == Connected(Done) && s.phase == Connecting && !s.shutdown && s.queue == []
  }

  predicate TakesNothingIn(s: State, events: seq<Event>)
    requires Legal(s, events)
    decreases |events|
  {
    events != [] && (TakesNothing(s, events[0]) || TakesNothingIn(Next(s, events[0]), events[1..]))
  }

  ghost predicate AllPosted(jobs: seq<Job>) {
    forall j :: 0 <= j < |jobs| ==> jobs[j].Posted?
  }

  ghost predicate LogPosted(log: seq<Entry>) {
    forall i :: 0 <= i < |log| ==> log[i].job.Posted?
  }

  /** Neither the jobs due nor the wire log hold an empty message. */
  ghost predicate NoneEmpty(l: Ledger) {
    AllPosted(Due(l)) && LogPosted(l.log)
  }

  lemma NoneEmptyMoved(l: Ledger, m: Move)
    requires CanMove(l, m) && |l.flight| <= 1
    ensures LogPosted(Moved(l, m).log) ==> LogPosted(l.log)
    ensures NoneEmpty(l) && !(m.Take? && l.queue == []) ==> NoneEmpty(Moved(l, m))
    ensures m.Take? && l.queue == [] ==> !LogPosted(Moved(l, m).log)
  {
    var l' := Moved(l, m);
    assert forall i :: 0 <= i < |l.log| ==> l'.log[i] == l.log[i];
    match m {
      case Add => assert Due(l') == Due(l) + [Posted(l.posted)];
      case Take(_) =>
        assert l'.log[|l.log|].job == Front(l.queue);
        assert l.queue != [] ==> Due(l') == Due(l) && Front(l.queue) == Due(l)[0];
      case PutBack => assert Due(l') == Due(l);
      case Reject(_) => assert Due(l') == Due(l) && l.flight[0] == Due(l)[0];
      case Confirm(_) => assert Due(l') == Due(l)[1..] && l.flight[0] == Due(l)[0];
      case Clear => assert Due(l') == Due(l)[..|l.flight|];
      case GiveUp => assert Due(l') == Due(l)[|l.flight|..];
      case Keep =>
    }
  }

  lemma ConnectOutcome(s: State, e: Event)
    requires Controlled(s) && Enabled(s, e)
    ensures s.phase == Connecting && Next(s, e).phase == Sending
       <==> e == Connected(Done) && s.phase == Connecting && !s.shutdown
  {
    hide Frame, Stored, ElementsOf, Front, Rest;
  }

  lemma EmptyStep(s: State, e: Event)
    requires Good(s) && Enabled(s, e)
    ensures var t := Next(s, e);
            && (LogPosted(t.h.log) ==> LogPosted(s.h.log))
            && (NoneEmpty(LedgerOf(s)) && !TakesNothing(s, e) ==> NoneEmpty(LedgerOf(t)))
            && (TakesNothing(s, e) ==> !LogPosted(t.h.log))
  {
    hide Reading, Backing, FewLost, FramesAsPosted, Frame, Accounted, WellOrdered, Ahead, AcceptedIn, NoneEmpty,
      LogPosted, Next, Enabled;
    var m := StepIsMove(s, e);
    ConnectOutcome(s, e);
    NoneEmptyMoved(LedgerOf(s), m);
  }

  lemma {:induction false} EmptyRun(s: State, events: seq<Event>)
    requires Good(s) && Legal(s, events)
    ensures var t := After(s, events);
            && (LogPosted(t.h.log) ==> LogPosted(s.h.log))
            && (NoneEmpty(LedgerOf(s)) && !TakesNothingIn(s, events) ==> NoneEmpty(LedgerOf(t)))
            && (TakesNothingIn(s, events) ==> !LogPosted(t.h.log))
    decreases |events|
  {
    hide Good, Next, Enabled, LedgerOf, NoneEmpty, LogPosted, TakesNothing;
    if events != [] {
      GoodKept(s, events[0]);
      EmptyStep(s, events[0]);
      EmptyRun(Next(s, events[0]), events[1..]);
    }
  }

  /** The exact condition for a whole run: only messages that were posted go over the wire, and only they are due,
      if and only if the transmitter never connected to find its queue empty. */
  lemma OnlyPostedExactly(events: seq<Event>)
    requires Legal(INITIAL, events)
    ensures var t := After(INITIAL, events);
            && (LogPosted(t.h.log) <==> !TakesNothingIn(INITIAL, events))
            && (LogPosted(t.h.log) ==> AllPosted(InFlight(t) + t.queue))
  {
    hide Good, Legal, After, TakesNothingIn;
    GoodInitially();
    assert NoneEmpty(LedgerOf(INITIAL));
    EmptyRun(INITIAL, events);
  }

  // When the queue can be empty at that moment.

  /** The queue a session has when it connects: only posts and drops touch it in between. `n` is the number the
      next message posted gets. */
  function QueueAfter(queue: seq<Job>, n: nat, events: seq<Event>): seq<Job>
    decreases |events|
  {
    if events == [] then queue
    else if events[0].Post? then QueueAfter(queue + [Posted(n)], n + 1, events[1..])
    else QueueAfter(if events[0].Drop? then [] else queue, n, events[1..])
  }

  predicate BeforeSending(p: Phase) {
    p == Resolving || p == Connecting
  }

  lemma QueueByEffect(s: State, t: State)
    requires Effect(s, t) && BeforeSending(t.phase)
    ensures BeforeSending(s.phase) && t.queue == s.queue && |t.store| == |s.store|
  {
    hide Frame, Stored, Reading, Answers;
  }

  lemma QueueStep(s: State, e: Event)
    requires Good(s) && Enabled(s, e) && !e.WorkerKick? && BeforeSending(Next(s, e).phase)
    ensures BeforeSending(s.phase) && |Next(s, e).store| == |s.store| + (if e.Post? then 1 else 0)
    ensures Next(s, e).queue == if e.Post? then s.queue + [Posted(|s.store|)] else if e.Drop? then [] else s.queue
  {
    hide Reading, Backing, FewLost, Faithful, Accounted, Orderly, Effect;
    if IsCompletion(e) {
      CompletionEffect(s, e);
      hide Next;
      QueueByEffect(s, Next(s, e));
    }
  }

  lemma {:induction false} QueueRun(s: State, events: seq<Event>)
    requires Good(s) && Legal(s, events) && forall i :: 0 <= i < |events| ==> !events[i].WorkerKick?
    requires BeforeSending(After(s, events).phase)
    ensures BeforeSending(s.phase) && After(s, events).queue == QueueAfter(s.queue, |s.store|, events)
    decreases |events|
  {
    hide Good, Next, Enabled;
    if events != [] {
      GoodKept(s, events[0]);
      QueueRun(Next(s, events[0]), events[1..]);
      QueueStep(s, events[0]);
    }
  }

  lemma {:induction false} QueueWithoutDrop(queue: seq<Job>, n: nat, events: seq<Event>)
    requires DropsIn(events) == 0
    ensures |QueueAfter(queue, n, events)| == |queue| + |PostedIn(events)| && queue <= QueueAfter(queue, n, events)
    decreases |events|
  {
    if events != [] {
      if events[0].Post? {
        QueueWithoutDrop(queue + [Posted(n)], n + 1, events[1..]);
      } else {
        QueueWithoutDrop(queue, n, events[1..]);
      }
    }
  }

  lemma {:induction false} QueueOfPosts(queue: seq<Job>, n: nat, events: seq<Event>)
    requires DropsIn(events) == 0 && AllPosted(queue)
    ensures AllPosted(QueueAfter(queue, n, events))
    decreases |events|
  {
    if events != [] {
      if events[0].Post? {
        QueueOfPosts(queue + [Posted(n)], n + 1, events[1..]);
      } else {
        QueueOfPosts(queue, n, events[1..]);
      }
    }
  }

  lemma EmptyFront(queue: seq<Job>, n: nat, events: seq<Event>)
    requires DropsIn(events) == 0
    ensures Front(QueueAfter(queue, n, events)) == Placeholder
       <==> (queue == [] && PostedIn(events) == []) || (queue != [] && queue[0] == Placeholder)
  {
    hide QueueAfter, PostedIn, DropsIn;
    QueueWithoutDrop(queue, n, events);
    if queue == [] {
      QueueOfPosts(queue, n, events);
    }
  }

  /** The exact condition for one session: it sends an empty message exactly if, when it connects, the posts and
      drops since the worker began it have left the queue empty or with an empty message that was put back in
      front. Without drops, that takes a queue that at the begin was empty, with no post in time, or had an empty
      message in front already. */
  lemma SessionSendsEmptyExactly(before: seq<Event>, session: seq<Event>)
    requires Legal(INITIAL, before) && Legal(After(INITIAL, before), session)
    requires forall i :: 0 <= i < |session| ==> !session[i].WorkerKick?
    ensures var s := After(INITIAL, before);
            var t := After(s, session);
            s.phase == Resolving && t.phase == Connecting && !t.shutdown && Enabled(t, Connected(Done)) ==>
              var queue := QueueAfter(s.queue, |s.store|, session);
              var sent := Next(t, Connected(Done)).h.log;
              && t.queue == queue && sent == t.h.log + [Sent(Front(queue), Frame(ElementsOf(t.store, Front(queue))))]
              && (Front(queue) == Placeholder <==> queue == [] || queue[0] == Placeholder)
              && (DropsIn(session) == 0 ==>
                    (Front(queue) == Placeholder
                     <==> (s.queue == [] && PostedIn(session) == []) || (s.queue != [] && s.queue[0] == Placeholder)))
  {
    hide Good, Legal, After, Enabled, QueueAfter, Frame, ElementsOf, Stored, PostedIn, DropsIn;
    Reachable(before);
    var s := After(INITIAL, before);
    var t := After(s, session);
    if s.phase == Resolving && t.phase == Connecting && !t.shutdown && Enabled(t, Connected(Done)) {
      QueueRun(s, session);
      if DropsIn(session) == 0 {
        EmptyFront(s.queue, |s.store|, session);
      }
    }
  }

  /** Every wait that ended without a time-out found a job. */
  predicate WakesWithJob(s: State, events: seq<Event>)
    requires Legal(s, events)
    decreases |events|
  {
    events == [] || (&& (events[0] == WorkerWake(false) ==> s.queue != [])
                     && WakesWithJob(Next(s, events[0]), events[1..]))
  }

  /** A session that has not sent yet, or is about to begin, has a job. */
  predicate JobAhead(s: State) {
    s.worker == Woken || BeforeSending(s.phase) ==> s.queue != []
  }

  lemma JobAheadByEffect(s: State, t: State)
    requires Controlled(s) && IsWaiting(s.phase) && Effect(s, t) && JobAhead(s)
    ensures JobAhead(t)
  {
    hide Effect;
    EffectOnLosses(s, t);
    if BeforeSending(t.phase) {
      QueueByEffect(s, t);
    }
  }

  lemma JobAheadKept(s: State, e: Event)
    requires Good(s) && Enabled(s, e) && JobAhead(s) && !e.Drop? && (e == WorkerWake(false) ==> s.queue != [])
    ensures JobAhead(Next(s, e)) && !TakesNothing(s, e)
  {
    hide Reading, Backing, FewLost, Faithful, Accounted, Orderly, Effect;
    if IsCompletion(e) {
      CompletionEffect(s, e);
      hide Next;
      JobAheadByEffect(s, Next(s, e));
    }
  }

  lemma {:induction false} NeverTakesNothing(s: State, events: seq<Event>)
    requires Good(s) && Legal(s, events) && JobAhead(s) && WakesWithJob(s, events) && DropsIn(events) == 0
    ensures !TakesNothingIn(s, events)
    decreases |events|
  {
    hide Good, Next, Enabled, JobAhead, TakesNothing;
    if events != [] {
      GoodKept(s, events[0]);
      JobAheadKept(s, events[0]);
      NeverTakesNothing(Next(s, events[0]), events[1..]);
    }
  }

  /** Without drops, and if the queue holds a job whenever a wait ends without a time-out, every job due and every
      frame and answer on the wire is that of a posted message. */
  lemma OnlyPosted(events: seq<Event>)
    requires Legal(INITIAL, events) && DropsIn(events) == 0 && WakesWithJob(INITIAL, events)
    ensures var t := After(INITIAL, events);
            LogPosted(t.h.log) && AllPosted(InFlight(t) + t.queue)
  {
    hide Good, Legal, After, TakesNothingIn, WakesWithJob;
    GoodInitially();
    NeverTakesNothing(INITIAL, events);
    OnlyPostedExactly(events);
  }

  /** An empty message in the way: as long as nothing is accepted, only empty messages are sent. */
  ghost predicate Blocked(l: Ledger) {
    Due(l) != [] && Due(l)[0] == Placeholder
  }

  lemma BlockedMove(l: Ledger, m: Move)
    requires CanMove(l, m) && |l.flight| <= 1 && Blocked(l) && !m.Clear? && Moved(l, m).lost == l.lost
    ensures var l' := Moved(l, m);
            && l.log <= l'.log
            && (forall i :: |l.log| <= i < |l'.log| ==> l'.log[i].job == Placeholder)
            && ((Blocked(l') && l'.confirmed == l.confirmed) || (|l'.log| == |l.log| + 1 && Accepted(l'.log[|l.log|])))
  {
    var l' := Moved(l, m);
    match m {
      case Add => assert Due(l') == Due(l) + [Posted(l.posted)];
      case Take(_) => assert Due(l') == Due(l);
      case PutBack => assert Due(l') == Due(l);
      case Reject(_) => assert Due(l') == Due(l) && l.flight[0] == Due(l)[0];
      case Confirm(_) => assert l.flight[0] == Due(l)[0];
      case GiveUp => assert l.flight == [];
      case Keep =>
    }
  }

  lemma BlockedStep(s: State, e: Event)
    requires Good(s) && Enabled(s, e) && Blocked(LedgerOf(s)) && !e.Drop? && Next(s, e).h.lost == s.h.lost
    ensures var t := Next(s, e);
            && s.h.log <= t.h.log
            && (forall i :: |s.h.log| <= i < |t.h.log| ==> t.h.log[i].job == Placeholder)
            && ((Blocked(LedgerOf(t)) && t.h.confirmed == s.h.confirmed)
                || (|t.h.log| == |s.h.log| + 1 && Accepted(t.h.log[|s.h.log|])))
  {
    hide Reading, Backing, FewLost, FramesAsPosted, Frame, Accounted, WellOrdered, Ahead, AcceptedIn, Blocked, Next,
      Enabled;
    var m := StepIsMove(s, e);
    BlockedMove(LedgerOf(s), m);
  }

  lemma HistoryGrows(s: State, e: Event)
    requires Good(s) && Enabled(s, e)
    ensures s.h.log <= Next(s, e).h.log && s.h.lost <= Next(s, e).h.lost
  {
    hide Reading, Backing, FewLost, FramesAsPosted, Frame, Accounted, Orderly, Next, Enabled;
    var m := StepIsMove(s, e);
  }

  lemma {:induction false} HistoryGrowsAlways(s: State, events: seq<Event>)
    requires Good(s) && Legal(s, events)
    ensures s.h.log <= After(s, events).h.log && s.h.lost <= After(s, events).h.lost
    decreases |events|
  {
    hide Good, Next, Enabled;
    if events != [] {
      GoodKept(s, events[0]);
      HistoryGrows(s, events[0]);
      HistoryGrowsAlways(Next(s, events[0]), events[1..]);
    }
  }

  /** No entry from `from` on is an acceptance. */
  predicate NoneAccepted(log: seq<Entry>, from: nat, to: nat)
    requires to <= |log|
  {
    forall i :: from <= i < to ==> !Accepted(log[i])
  }

  lemma {:induction false} BlockedFrom(s: State, events: seq<Event>)
    requires Good(s) && Legal(s, events) && Blocked(LedgerOf(s))
    requires DropsIn(events) == 0 && After(s, events).h.lost == s.h.lost
    ensures var t := After(s, events);
            && s.h.log <= t.h.log
            && (forall i :: |s.h.log| <= i < |t.h.log| && NoneAccepted(t.h.log, |s.h.log|, i) ==>
                  t.h.log[i].job == Placeholder)
            && (NoneAccepted(t.h.log, |s.h.log|, |t.h.log|) ==> Blocked(LedgerOf(t)) && t.h.confirmed == s.h.confirmed)
    decreases |events|
  {
    hide Good, Next, Enabled, LedgerOf, Blocked, Accepted;
    if events != [] {
      var n := Next(s, events[0]);
      var t := After(s, events);
      GoodKept(s, events[0]);
      HistoryGrows(s, events[0]);
      HistoryGrowsAlways(n, events[1..]);
      assert n.h.lost == s.h.lost;
      BlockedStep(s, events[0]);
      if Blocked(LedgerOf(n)) && n.h.confirmed == s.h.confirmed {
        BlockedFrom(n, events[1..]);
        forall i | |s.h.log| <= i < |t.h.log| && NoneAccepted(t.h.log, |s.h.log|, i)
          ensures t.h.log[i].job == Placeholder
        {
          if i >= |n.h.log| {
            assert NoneAccepted(t.h.log, |n.h.log|, i);
          } else {
            assert t.h.log[i] == n.h.log[i];
          }
        }
      } else {
        assert t.h.log[|s.h.log|] == n.h.log[|s.h.log|];
      }
    }
  }

  /** An empty message that is first in line holds up every posted message: until an answer accepts it, a drop
      clears the queue or a new worker gives it up, nothing but empty messages is sent and nothing is confirmed. */
  lemma EmptyMessageBlocks(before: seq<Event>, events: seq<Event>)
    requires Legal(INITIAL, before) && Legal(After(INITIAL, before), events)
    requires DropsIn(events) == 0 && After(After(INITIAL, before), events).h.lost == After(INITIAL, before).h.lost
    ensures var s := After(INITIAL, before);
            var t := After(s, events);
            var due := InFlight(s) + s.queue;
            due != [] && due[0] == Placeholder ==>
              && s.h.log <= t.h.log
              && (forall i :: |s.h.log| <= i < |t.h.log| && NoneAccepted(t.h.log, |s.h.log|, i) ==>
                    t.h.log[i].job == Placeholder)
              && (NoneAccepted(t.h.log, |s.h.log|, |t.h.log|) ==>
                    && t.h.confirmed == s.h.confirmed
                    && InFlight(t) + t.queue != [] && (InFlight(t) + t.queue)[0] == Placeholder)
  {
    hide Good, Legal, After, InFlight;
    Reachable(before);
    var s := After(INITIAL, before);
    if InFlight(s) + s.queue != [] && (InFlight(s) + s.queue)[0] == Placeholder {
      BlockedFrom(s, events);
    }
  }

  // -------------------------------------------------------- two such runs

  lemma KickedStep(s: State)
    requires s.worker == Woken && s.pending == multiset{}
    ensures Enabled(s, WorkerKick)
    ensures Next(s, WorkerKick) == s.(phase := Resolving, prev := s.phase, worker := Checking, sentinel := true,
                                      pending := multiset{OnResolve})
  {
    assert multiset{} + multiset{OnResolve} == multiset{OnResolve};
  }

  lemma ResolvedDone(s: State)
    requires s.phase == Resolving && !s.shutdown && s.pending == multiset{OnResolve}
    ensures Enabled(s, Resolved(Done))
    ensures Next(s, Resolved(Done)) == s.(phase := Connecting, prev := Resolving, pending := multiset{OnConnect})
  {
    assert multiset{OnResolve} - multiset{OnResolve} + multiset{OnConnect} == multiset{OnConnect};
  }

  lemma ConnectedDone(s: State)
    requires s.phase == Connecting && !s.shutdown && s.pending == multiset{OnConnect}
    ensures Enabled(s, Connected(Done))
    ensures var job := Front(s.queue);
            var frame := Frame(ElementsOf(s.store, job));
            Next(s, Connected(Done)) ==
              s.(phase := Sending, prev := Connecting, queue := Rest(s.queue), sending := job, buf := Some(frame),
                 store := Stored(s.store, job), pending := multiset{OnWrite},
                 h := s.h.(log := s.h.log + [Sent(job, frame)]))
  {
    hide Frame, Stored, ElementsOf, Front, Rest;
    assert multiset{OnConnect} - multiset{OnConnect} + multiset{OnWrite} == multiset{OnWrite};
  }

  lemma SendsFront(s: State)
    requires s.worker == Woken && !s.shutdown && s.pending == multiset{}
    ensures var b := [WorkerKick, Resolved(Done), Connected(Done)];
            Legal(s, b)
            && var t := After(s, b);
               && t.phase == Sending && t.sending == Front(s.queue) && t.queue == Rest(s.queue)
               && t.pending == multiset{OnWrite} && t.running == s.running && !t.shutdown && t.worker == Checking
               && t.h == s.h.(log := s.h.log + [Sent(Front(s.queue), Frame(ElementsOf(s.store, Front(s.queue))))])
  {
    hide Legal, After, Next, Enabled, Frame, Stored, Front, Rest, ElementsOf;
    var b := [WorkerKick, Resolved(Done), Connected(Done)];
    KickedStep(s);
    var s1 := Next(s, b[0]);
    ResolvedDone(s1);
    var s2 := Next(s1, b[1]);
    ConnectedDone(s2);
    var t := Next(s2, b[2]);
    assert b[1..][1..] == b[2..];
    NoStep(t, b[2..][1..]);
    OneStep(s2, b[2], b[2..]);
    OneStep(s1, b[1], b[1..]);
    OneStep(s, b[0], b);
  }

  /** A wait that ends without a job begins a session all the same, and the empty message goes out. */
  lemma SpuriousWake()
    ensures var a := [Start, WorkerBegin, WorkerCheck, WorkerWake(false)];
            var b := [WorkerKick, Resolved(Done), Connected(Done)];
            Legal(INITIAL, a + b) && After(INITIAL, a + b).h.log == [Sent(Placeholder, Frame([]))]
  {
    hide Legal, After, Frame;
    var a := [Start, WorkerBegin, WorkerCheck, WorkerWake(false)];
    var s1 := Next(INITIAL, Start);
    var s2 := Next(s1, WorkerBegin);
    var s3 := Next(s2, WorkerCheck);
    FourSteps(INITIAL, s1, s2, s3, a);
    var s := Next(s3, WorkerWake(false));
    assert s.worker == Woken && s.queue == [] && s.store == [] && s.h.log == [] && s.pending == multiset{};
    SendsFront(s);
    RunConcat(INITIAL, a, [WorkerKick, Resolved(Done), Connected(Done)]);
  }

  lemma ReadyHistory(message: Packables, begin: seq<Event>)
    requires begin == [Post(message), Start, WorkerBegin, WorkerCheck] && Legal(INITIAL, begin)
    ensures var s := After(INITIAL, begin);
            s.pending == multiset{} && s.running && s.h.lost == [] && s.h.stops == 0
  {
    hide Legal, After;
    var s1 := Next(INITIAL, begin[0]);
    var s2 := Next(s1, begin[1]);
    var s3 := Next(s2, begin[2]);
    FourSteps(INITIAL, s1, s2, s3, begin);
  }

  lemma Restarts(s: State)
    requires s.phase == Sending && s.pending == multiset{OnWrite} && s.running && !s.shutdown && s.worker == Checking
    ensures var c := [Stop, Written(Aborted), WorkerCheck, Start] + [WorkerBegin];
            Legal(s, c)
            && var t := After(s, c);
               && t.h.lost == s.h.lost + [s.sending] && t.queue == s.queue && t.h.confirmed == s.h.confirmed
               && t.h.stops == s.h.stops + 1
  {
    hide Legal, After;
    var c := [Stop, Written(Aborted), WorkerCheck, Start];
    var s1 := Next(s, Stop);
    var s2 := Next(s1, Written(Aborted));
    assert s2.pending == multiset{};
    var s3 := Next(s2, WorkerCheck);
    var s4 := Next(s3, Start);
    FourSteps(s, s1, s2, s3, c);
    NoStep(Next(s4, WorkerBegin), [WorkerBegin][1..]);
    OneStep(s4, WorkerBegin, [WorkerBegin]);
    RunConcat(s, c, [WorkerBegin]);
  }

  /** The one loss: stopped while a message is being sent, the transmitter does not put it back, and the next
      start forgets it. */
  lemma StopLosesOne(message: Packables)
    ensures var a := [Post(message), Start, WorkerBegin, WorkerCheck];
            var b := [WorkerKick, Resolved(Done), Connected(Done)];
            var c := [Stop, Written(Aborted), WorkerCheck, Start] + [WorkerBegin];
            && Legal(INITIAL, a + b + c)
            && var t := After(INITIAL, a + b + c);
               t.h.lost == [Posted(0)] && t.queue == [] && t.h.confirmed == [] && t.h.stops == 1
  {
    hide Legal, After, Frame;
    var a := [Post(message), Start, WorkerBegin, WorkerCheck];
    var b := [WorkerKick, Resolved(Done), Connected(Done)];
    ReadyToSend(message, a);
    var s := After(INITIAL, a);
    Reachable(a);
    ReadyHistory(message, a);
    SendsFront(s);
    RunConcat(INITIAL, a, b);
    Restarts(After(s, b));
    RunConcat(INITIAL, a + b, [Stop, Written(Aborted), WorkerCheck, Start] + [WorkerBegin]);
  }
}
