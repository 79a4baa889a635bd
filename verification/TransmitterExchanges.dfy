/** Whole sessions: that the worker gets to them, what each does with the first message, and many in a row. */
module TransmitterExchanges {
  import opened BigEndian
  import opened Messages
  import opened Transmission
  import opened TransmitterSteps
  import opened TransmitterRuns
  import opened TransmitterTheorems
  import opened TransmitterReplies
  import opened Ledger

  // ------------------------------------------------------- up to a session

  /** Between sessions, with a job in the queue. */
  predicate HasWork(s: State) {
    IsLive(s.worker) && !s.shutdown && s.phase == NotConnected && s.queue != []
  }

  /** A turn of the worker other than the one that begins a session. */
  predicate IsTurn(e: Event) {
    e.WorkerCheck? || e.WorkerWake?
  }

  function TurnsIn(events: seq<Event>): nat {
    if events == [] then 0 else (if IsTurn(events[0]) then 1 else 0) + TurnsIn(events[1..])
  }

  /** The turns a worker with a job in the queue has ahead of it at most. */
  function TurnsAhead(w: Worker): nat {
    match w
    case Waiting => 2
    case Checking => 1
    case _ => 0
  }

  predicate LetsWork(e: Event) {
    !e.Stop? && !e.Drop? && !e.WorkerKick?
  }

  lemma TurnStep(s: State, e: Event)
    requires Good(s) && HasWork(s) && Enabled(s, e) && LetsWork(e)
    ensures var t := Next(s, e);
            HasWork(t) && TurnsAhead(t.worker) + (if IsTurn(e) then 1 else 0) <= TurnsAhead(s.worker)
  {
    hide Reading, Backing, FewLost, Faithful, Accounted, Orderly;
  }

  lemma {:induction false} TurnsBound(s: State, events: seq<Event>)
    requires Good(s) && HasWork(s) && Legal(s, events) && forall i :: 0 <= i < |events| ==> LetsWork(events[i])
    ensures var t := After(s, events);
            HasWork(t) && TurnsAhead(t.worker) + TurnsIn(events) <= TurnsAhead(s.worker)
    decreases |events|
  {
    hide Good, Next, Enabled, HasWork, LetsWork;
    if events != [] {
      TurnStep(s, events[0]);
      GoodKept(s, events[0]);
      TurnsBound(Next(s, events[0]), events[1..]);
    }
  }

  lemma WorkerCanAct(s: State)
    requires HasWork(s)
    ensures Enabled(s, WorkerCheck) || Enabled(s, WorkerWake(true)) || Enabled(s, WorkerKick)
    ensures TurnsAhead(s.worker) == 0 ==> Enabled(s, WorkerKick)
    ensures Enabled(s, WorkerKick) ==> Next(s, WorkerKick).phase == Resolving
  {
  }

  /** Between sessions, with a job in the queue, the worker can always act, and whatever it does and the other
      threads post meanwhile, after two turns at most it begins a session. */
  lemma QueueIsServed(before: seq<Event>, events: seq<Event>)
    requires Legal(INITIAL, before) && Legal(After(INITIAL, before), events)
    requires forall i :: 0 <= i < |events| ==> LetsWork(events[i])
    ensures var s := After(INITIAL, before);
            var t := After(s, events);
            HasWork(s) ==>
              && HasWork(t) && TurnsIn(events) <= 2 && (TurnsIn(events) == 2 ==> Enabled(t, WorkerKick))
              && (Enabled(t, WorkerCheck) || Enabled(t, WorkerWake(true)) || Enabled(t, WorkerKick))
              && (Enabled(t, WorkerKick) ==> Next(t, WorkerKick).phase == Resolving)
  {
    hide Good, Legal, After, Next, Enabled, HasWork, LetsWork, TurnsIn;
    Reachable(before);
    var s := After(INITIAL, before);
    if HasWork(s) {
      TurnsBound(s, events);
      WorkerCanAct(After(s, events));
    }
  }

  // ---------------------------------------------------------- one session

  /** Neither a stop, nor a drop, nor a failed operation; and not the end of the delay after a failed session. */
  predicate Undisturbed(e: Event) {
    match e
    case Stop => false
    case Drop => false
    case Resolved(outcome) => outcome == Done
    case Connected(outcome) => outcome == Done
    case Written(outcome) => outcome == Done
    case HeaderRead(r) => r.Received?
    case ConfirmationRead(r) => r.Received?
    case TimerFired(_) => false
    case _ => true
  }

  /** Events of a session the worker has begun, without network errors. */
  predicate Goes(events: seq<Event>) {
    forall i :: 0 <= i < |events| ==> Undisturbed(events[i]) && !events[i].WorkerKick?
  }

  predicate IsSession(events: seq<Event>) {
    events != [] && events[0] == WorkerKick && Goes(events[1..])
  }

  function BytesOf(e: Event): seq<byte> {
    match e
    case HeaderRead(Received(bytes)) => bytes
    case ConfirmationRead(Received(bytes)) => bytes
    case _ => []
  }

  /** The reply as far as it was read. */
  function ReadIn(events: seq<Event>): seq<byte> {
    if events == [] then [] else BytesOf(events[0]) + ReadIn(events[1..])
  }

  /** The jobs that join the queue, the first with number `n`. */
  function JoinedIn(n: nat, events: seq<Event>): seq<Job>
    decreases |events|
  {
    if events == [] then []
    else if events[0].Post? then [Posted(n)] + JoinedIn(n + 1, events[1..])
    else JoinedIn(n, events[1..])
  }

  function JoinedBy(n: nat, e: Event): seq<Job> {
    if e.Post? then [Posted(n)] else []
  }

  /** The line of the wire log for the first queued job. */
  function FirstSent(s: State): Entry
    requires s.queue != []
  {
    Sent(s.queue[0], FrameOf(s.h.posted, s.queue[0]))
  }

  /** How a session begun in `s` has treated the first queued job by the time its reply reads so. */
  ghost predicate Treats(s: State, t: State, joined: seq<Job>, reply: Reply)
    requires s.queue != []
  {
    match reply
    case Incomplete => IsWaiting(t.phase) && t.phase != Error && t.h.confirmed == s.h.confirmed
    case Faulty =>
      && t.phase == Error && t.queue == s.queue + joined && t.h.log == s.h.log + [FirstSent(s)]
      && t.h.confirmed == s.h.confirmed
    case Status(v) =>
      && t.h.log == s.h.log + [FirstSent(s), Answered(s.queue[0], v)]
      && (v < 0 ==> t.phase == Error && t.queue == s.queue + joined && t.h.confirmed == s.h.confirmed)
      && (v >= 0 ==> t.phase == NotConnected && t.queue == s.queue[1..] + joined
                     && t.h.confirmed == s.h.confirmed + [s.queue[0]])
  }

  ghost predicate Stage(s: State, u: State, joined: seq<Job>, reply: seq<byte>)
    requires s.queue != []
  {
    if u.phase == Resolving || u.phase == Connecting then
      u.queue == s.queue + joined && u.h.log == s.h.log && u.h.confirmed == s.h.confirmed && reply == []
    else if u.phase in {Sending, ReceivingHeader, ReceivingConfirmation} then
      && u.queue == s.queue[1..] + joined && u.sending == s.queue[0] && u.h.log == s.h.log + [FirstSent(s)]
      && u.h.confirmed == s.h.confirmed && reply == SoFar(u)
    else Treats(s, u, joined, ReplyOf(reply)) && ReplyOf(reply) != Incomplete
  }

  /** Where a session begun in `s` stands in `u`. */
  ghost predicate Underway(s: State, u: State, joined: seq<Job>, reply: seq<byte>)
    requires s.queue != []
  {
    && IsLive(u.worker) && !u.shutdown
    && s.h.posted <= u.h.posted && (s.queue[0].Posted? ==> s.queue[0].id < |s.h.posted|)
    && Stage(s, u, joined, reply)
  }

  lemma FirstIsKnown(s: State)
    requires Good(s) && s.queue != [] && s.phase == NotConnected
    ensures s.queue[0].Posted? ==> s.queue[0].id < |s.h.posted|
  {
    hide Controlled, Reading, Backing, FewLost, Faithful, Accounted, WellOrdered, AcceptedIn;
    assert Due(LedgerOf(s)) == s.queue;
  }

  lemma Begins(s: State)
    requires Good(s) && !s.shutdown && s.worker == Woken && s.queue != []
    ensures Enabled(s, WorkerKick) && Underway(s, Next(s, WorkerKick), [], [])
  {
    hide Reading, Backing, FewLost, Faithful, Accounted, Orderly;
    FirstIsKnown(s);
    assert s.queue + [] == s.queue;
  }

  lemma OtherStage(s: State, u: State, joined: seq<Job>, reply: seq<byte>, e: Event)
    requires Controlled(u) && |u.store| == |u.h.posted| && Enabled(u, e) && s.queue != []
    requires Undisturbed(e) && !e.WorkerKick? && !IsCompletion(e) && Underway(s, u, joined, reply)
    ensures Underway(s, Next(u, e), joined + JoinedBy(|u.store|, e), reply)
  {
    hide ReplyOf, FirstSent;
    assert joined + [] == joined;
  }

  lemma SentStage(s: State, u: State, t: State, joined: seq<Job>)
    requires s.queue != [] && Underway(s, u, joined, []) && u.phase == Connecting && Faithful(u) && Advances(u, t)
    ensures Underway(s, t, joined, [])
  {
    hide Frame, Stored;
    var job := s.queue[0];
    assert Front(u.queue) == job && Rest(u.queue) == s.queue[1..] + joined;
    StoredSameFrames(u.store, u.h.posted, job);
    assert ElementsOf(u.h.posted, job) == ElementsOf(s.h.posted, job);
  }

  lemma SuccessPhase(s: State, e: Event)
    requires Controlled(s) && !s.shutdown && Enabled(s, e)
    requires e in {Resolved(Done), Connected(Done), Written(Done)}
    ensures Next(s, e).phase in {Connecting, Sending, ReceivingHeader}
  {
    hide Frame, Stored;
  }

  lemma AdvanceFrom(s: State, t: State)
    requires Advances(s, t) && t.phase in {Connecting, Sending, ReceivingHeader}
    ensures s.phase in {Resolving, Connecting, Sending}
  {
    hide Frame, Stored, Reading, Longer;
  }

  lemma SuccessStep(s: State, e: Event)
    requires Good(s) && !s.shutdown && Enabled(s, e)
    requires e in {Resolved(Done), Connected(Done), Written(Done)}
    ensures Advances(s, Next(s, e)) && s.phase in {Resolving, Connecting, Sending}
  {
    hide Backing, FewLost, Faithful, Accounted, Orderly, Advances, Answers, Next, Enabled, Controlled, Reading;
    CompletionEffect(s, e);
    SuccessPhase(s, e);
    AdvanceFrom(s, Next(s, e));
  }

  lemma SuccessStage(s: State, u: State, joined: seq<Job>, reply: seq<byte>, e: Event)
    requires Good(u) && Enabled(u, e) && s.queue != [] && Underway(s, u, joined, reply)
    requires e in {Resolved(Done), Connected(Done), Written(Done)}
    ensures Underway(s, Next(u, e), joined, reply)
  {
    hide Next, Enabled, Controlled, Reading, Backing, FewLost, Accounted, Orderly, Faithful, ReplyOf, FirstSent, Frame,
      Stored;
    SuccessStep(u, e);
    if u.phase == Connecting {
      SentStage(s, u, Next(u, e), joined);
    }
  }

  lemma ReadKeeps(s: State, t: State)
    requires Effect(s, t) && IsReading(s)
    ensures t.worker == s.worker && t.shutdown == s.shutdown && t.h.posted == s.h.posted
    ensures t.phase == Error ==> t.queue == [s.sending] + s.queue && t.h.confirmed == s.h.confirmed
    ensures t.phase == NotConnected || t.phase == ReceivingConfirmation ==> t.queue == s.queue
  {
    hide Answers, Reading, Longer;
  }

  lemma SettledStage(s: State, u: State, t: State, joined: seq<Job>, stream: seq<byte>)
    requires s.queue != [] && Underway(s, u, joined, SoFar(u)) && IsReading(u) && Effect(u, t)
    requires Settles(u, t, ReplyOf(stream)) && t.h.received == stream && t.sending == u.sending
    ensures Underway(s, t, joined, stream)
  {
    hide Effect, ReplyOf, FirstSent;
    ReadKeeps(u, t);
    assert [s.queue[0]] + (s.queue[1..] + joined) == s.queue + joined;
    assert forall v :: s.h.log + [FirstSent(s)] + [Answered(s.queue[0], v)]
                       == s.h.log + [FirstSent(s), Answered(s.queue[0], v)];
  }

  lemma ReadStage(s: State, u: State, joined: seq<Job>, reply: seq<byte>, e: Event)
    requires Good(u) && Enabled(u, e) && s.queue != [] && Underway(s, u, joined, reply)
    requires Undisturbed(e) && (e.HeaderRead? || e.ConfirmationRead?)
    ensures Underway(s, Next(u, e), joined, reply + BytesOf(e))
  {
    hide Next, Reading, Backing, FewLost, Accounted, Orderly, Faithful, ReplyOf, FirstSent, Effect, Settles, Treats;
    CompletionEffect(u, e);
    assert e == ReadEvent(u, BytesOf(e));
    DecidesFrom(u, BytesOf(e));
    SettledStage(s, u, Next(u, e), joined, reply + BytesOf(e));
  }

  lemma StageStep(s: State, u: State, joined: seq<Job>, reply: seq<byte>, e: Event)
    requires Good(u) && Enabled(u, e) && s.queue != [] && Underway(s, u, joined, reply)
    requires Undisturbed(e) && !e.WorkerKick?
    ensures Underway(s, Next(u, e), joined + JoinedBy(|u.store|, e), reply + BytesOf(e))
  {
    hide Next, Enabled, Controlled, Reading, Backing, FewLost, Accounted, Orderly, FramesAsPosted, Underway;
    assert reply + [] == reply && joined + [] == joined;
    if e.HeaderRead? || e.ConfirmationRead? {
      ReadStage(s, u, joined, reply, e);
    } else if IsCompletion(e) {
      SuccessStage(s, u, joined, reply, e);
    } else {
      OtherStage(s, u, joined, reply, e);
    }
  }

  lemma StoreGrows(s: State, e: Event)
    requires Good(s) && Enabled(s, e)
    ensures |Next(s, e).store| == |s.store| + |JoinedBy(|s.store|, e)|
  {
    hide Controlled, Reading, Backing, FewLost, Accounted, Orderly, FramesAsPosted, Frame, Next, Enabled;
    GoodKept(s, e);
    StepHistory(s, e);
  }

  lemma {:induction false} StageRun(s: State, u: State, joined: seq<Job>, reply: seq<byte>, events: seq<Event>)
    requires Good(u) && Legal(u, events) && s.queue != [] && Underway(s, u, joined, reply) && Goes(events)
    ensures Underway(s, After(u, events), joined + JoinedIn(|u.store|, events), reply + ReadIn(events))
    ensures Good(After(u, events))
    decreases |events|
  {
    hide Next, Enabled, Good, Underway, BytesOf, Undisturbed;
    if events == [] {
      assert reply + [] == reply && joined + [] == joined;
    } else {
      var e := events[0];
      GoodKept(u, e);
      StoreGrows(u, e);
      StageStep(s, u, joined, reply, e);
      StageRun(s, Next(u, e), joined + JoinedBy(|u.store|, e), reply + BytesOf(e), events[1..]);
      var more, bytes := JoinedIn(|Next(u, e).store|, events[1..]), ReadIn(events[1..]);
      assert joined + JoinedBy(|u.store|, e) + more == joined + (JoinedBy(|u.store|, e) + more);
      assert reply + BytesOf(e) + bytes == reply + (BytesOf(e) + bytes);
      assert JoinedIn(|u.store|, events) == JoinedBy(|u.store|, e) + more;
    }
  }

  lemma StageTreats(s: State, u: State, joined: seq<Job>, reply: seq<byte>)
    requires Good(u) && s.queue != [] && Underway(s, u, joined, reply)
    ensures !u.shutdown && Treats(s, u, joined, ReplyOf(reply))
  {
    hide Backing, FewLost, Faithful, Accounted, Orderly, FirstSent;
    if u.phase == ReceivingConfirmation {
      UndecidedSoFar(u);
    }
  }

  lemma BeginsWith(s: State, events: seq<Event>)
    requires Legal(s, events) && events != []
    ensures Enabled(s, events[0]) && Legal(Next(s, events[0]), events[1..])
    ensures After(s, events) == After(Next(s, events[0]), events[1..])
  {
    hide Next, Enabled;
  }

  lemma FirstIsKick(s: State, session: seq<Event>)
    requires Legal(s, session) && session != [] && session[0] == WorkerKick
    ensures Enabled(s, WorkerKick) && s.worker == Woken
    ensures var u := Next(s, WorkerKick);
            Legal(u, session[1..]) && After(s, session) == After(u, session[1..]) && u.store == s.store
    ensures JoinedIn(|s.store|, session) == JoinedIn(|s.store|, session[1..]) && ReadIn(session) == ReadIn(session[1..])
  {
    hide Legal, After;
    BeginsWith(s, session);
    assert [] + ReadIn(session[1..]) == ReadIn(session[1..]);
  }

  /** Every session without network errors. */
  lemma OutcomeFrom(s: State, session: seq<Event>)
    requires Good(s) && !s.shutdown && s.queue != [] && Legal(s, session) && IsSession(session)
    ensures var t := After(s, session);
            Good(t) && !t.shutdown && Treats(s, t, JoinedIn(|s.store|, session), ReplyOf(ReadIn(session)))
  {
    hide Good, Next, Legal, After, Goes, Underway, Treats, ReplyOf, ReadIn, JoinedIn;
    FirstIsKick(s, session);
    Begins(s);
    GoodKept(s, WorkerKick);
    var u := Next(s, WorkerKick);
    StageRun(s, u, [], [], session[1..]);
    var joined, reply := JoinedIn(|u.store|, session[1..]), ReadIn(session[1..]);
    assert [] + joined == joined && [] + reply == reply;
    StageTreats(s, After(u, session[1..]), joined, reply);
  }

  /** A session without network errors sends the first queued message once and does with it what its reply says,
      wherever the reply is cut after its header and whatever is posted meanwhile: an accepting status confirms it,
      any other outcome puts it back in front of the queue, and as long as the reply is incomplete the session goes
      on. What is posted joins the end of the queue. */
  lemma SessionOutcome(before: seq<Event>, session: seq<Event>)
    requires Legal(INITIAL, before) && Legal(After(INITIAL, before), session) && IsSession(session)
    ensures var s := After(INITIAL, before);
            s.h.posted == PostedIn(before)
            && (!s.shutdown && s.queue != []
                ==> Treats(s, After(s, session), JoinedIn(|PostedIn(before)|, session), ReplyOf(ReadIn(session))))
  {
    hide Controlled, Reading, Backing, FewLost, Accounted, Orderly, FramesAsPosted, Legal, After, IsSession, Treats,
      ReplyOf, ReadIn, JoinedIn, PostedIn;
    Ended(before);
    var s := After(INITIAL, before);
    if !s.shutdown && s.queue != [] {
      OutcomeFrom(s, session);
    }
  }

  // -------------------------------------------------------- many sessions

  /** The reply accepts the message. */
  predicate IsAcceptance(reply: seq<byte>) {
    ReplyOf(reply).Status? && ReplyOf(reply).value >= 0
  }

  /** Sessions in a row, each without network errors and with an accepting reply. */
  ghost predicate AllAccepted(s: State, sessions: seq<seq<Event>>)
    decreases |sessions|
  {
    sessions == [] || (&& Legal(s, sessions[0]) && IsSession(sessions[0]) && IsAcceptance(ReadIn(sessions[0]))
                       && AllAccepted(After(s, sessions[0]), sessions[1..]))
  }

  function Flat(sessions: seq<seq<Event>>): seq<Event> {
    if sessions == [] then [] else sessions[0] + Flat(sessions[1..])
  }

  /** One frame and one answer for each job. */
  function ExchangesOf(posted: seq<Packables>, jobs: seq<Job>, sessions: seq<seq<Event>>): seq<Entry>
    requires |sessions| <= |jobs|
  {
    if sessions == [] then []
    else
      var reply := ReplyOf(ReadIn(sessions[0]));
      [Sent(jobs[0], FrameOf(posted, jobs[0])), Answered(jobs[0], if reply.Status? then reply.value else 0)]
      + ExchangesOf(posted, jobs[1..], sessions[1..])
  }

  ghost predicate KnownJobs(jobs: seq<Job>, n: nat) {
    forall j :: 0 <= j < |jobs| && jobs[j].Posted? ==> jobs[j].id < n
  }

  lemma {:induction false} SameExchanges(a: seq<Packables>, b: seq<Packables>, x: seq<Job>, y: seq<Job>,
                                         sessions: seq<seq<Event>>)
    requires a <= b && |sessions| <= |x| && x <= y && KnownJobs(x, |a|)
    ensures ExchangesOf(a, x, sessions) == ExchangesOf(b, y, sessions)
  {
    hide ReplyOf, ReadIn, Frame;
    if sessions != [] {
      assert ElementsOf(a, x[0]) == ElementsOf(b, y[0]);
      SameExchanges(a, b, x[1..], y[1..], sessions[1..]);
    }
  }

  lemma QueueIsKnown(s: State)
    requires Good(s)
    ensures KnownJobs(s.queue, |s.h.posted|)
  {
    hide Controlled, Reading, Backing, FewLost, Faithful, Accounted, WellOrdered, AcceptedIn;
    forall j | 0 <= j < |s.queue| && s.queue[j].Posted?
      ensures s.queue[j].id < |s.h.posted|
    {
      assert Due(LedgerOf(s))[|InFlight(s)| + j] == s.queue[j];
    }
  }

  lemma {:induction false} JoinedConcat(n: nat, a: seq<Event>, b: seq<Event>)
    ensures JoinedIn(n, a + b) == JoinedIn(n, a) + JoinedIn(n + |JoinedIn(n, a)|, b)
    decreases |a|
  {
    if a == [] {
      assert a + b == b;
    } else {
      assert (a + b)[1..] == a[1..] + b;
      JoinedConcat(if a[0].Post? then n + 1 else n, a[1..], b);
    }
  }

  lemma {:induction false} StoreAfter(s: State, events: seq<Event>)
    requires Good(s) && Legal(s, events)
    ensures var t := After(s, events);
            |t.store| == |s.store| + |JoinedIn(|s.store|, events)| && s.h.posted <= t.h.posted
    decreases |events|
  {
    hide Good, Next, Enabled;
    if events != [] {
      GoodKept(s, events[0]);
      StoreGrows(s, events[0]);
      StepHistory(s, events[0]);
      StoreAfter(Next(s, events[0]), events[1..]);
    }
  }

  lemma AcceptedOne(s: State, session: seq<Event>)
    requires Good(s) && !s.shutdown && s.queue != [] && Legal(s, session) && IsSession(session)
    requires IsAcceptance(ReadIn(session))
    ensures var t := After(s, session);
            && Good(t) && !t.shutdown && t.phase == NotConnected
            && t.queue == s.queue[1..] + JoinedIn(|s.store|, session)
            && t.h.confirmed == s.h.confirmed + [s.queue[0]]
            && t.h.log == s.h.log + [FirstSent(s), Answered(s.queue[0], ReplyOf(ReadIn(session)).value)]
  {
    hide Good, Legal, After, ReplyOf, ReadIn, JoinedIn, FirstSent, IsSession;
    OutcomeFrom(s, session);
  }

  lemma AcceptedReply(session: seq<Event>)
    requires IsAcceptance(ReadIn(session))
    ensures ReplyOf(ReadIn(session)).Status?
  {
  }

  lemma NoExchanges(posted: seq<Packables>, jobs: seq<Job>)
    ensures ExchangesOf(posted, jobs, []) == []
  {
  }

  lemma NoneJoined(n: nat)
    ensures JoinedIn(n, []) == []
  {
  }

  lemma RestOfQueue(queue: seq<Job>, joined: seq<Job>, more: seq<Job>, n: nat)
    requires 1 <= n <= |queue|
    ensures var rest := queue[1..] + joined;
            queue[..n] == [queue[0]] + rest[..n - 1] && rest[n - 1..] + more == queue[n..] + (joined + more)
  {
  }

  /** What sessions in a row have done by `t`. */
  ghost predicate Confirms(s: State, t: State, sessions: seq<seq<Event>>, joined: seq<Job>)
    requires |sessions| <= |s.queue|
  {
    && t.h.confirmed == s.h.confirmed + s.queue[..|sessions|] && t.queue == s.queue[|sessions|..] + joined
    && t.h.log == s.h.log + ExchangesOf(s.h.posted, s.queue, sessions)
  }

  lemma ConfirmsMore(s: State, u: State, t: State, sessions: seq<seq<Event>>, joined: seq<Job>, more: seq<Job>)
    requires 1 <= |sessions| <= |s.queue| && IsAcceptance(ReadIn(sessions[0]))
    requires KnownJobs(s.queue, |s.h.posted|) && s.h.posted <= u.h.posted
    requires u.queue == s.queue[1..] + joined && u.h.confirmed == s.h.confirmed + [s.queue[0]]
    requires u.h.log == s.h.log + [FirstSent(s), Answered(s.queue[0], ReplyOf(ReadIn(sessions[0])).value)]
    requires Confirms(u, t, sessions[1..], more)
    ensures Confirms(s, t, sessions, joined + more)
  {
    hide ReplyOf, ReadIn, FrameOf;
    SameExchanges(s.h.posted, u.h.posted, s.queue[1..], u.queue, sessions[1..]);
    RestOfQueue(s.queue, joined, more, |sessions|);
  }

  lemma {:induction false} ConfirmedFrom(s: State, sessions: seq<seq<Event>>)
    requires Good(s) && !s.shutdown && |sessions| <= |s.queue| && AllAccepted(s, sessions)
    ensures Legal(s, Flat(sessions))
    ensures Confirms(s, After(s, Flat(sessions)), sessions, JoinedIn(|s.store|, Flat(sessions)))
    decreases |sessions|
  {
    hide Good, Legal, After, IsSession, IsAcceptance, ReplyOf, ReadIn, JoinedIn, FirstSent, ExchangesOf;
    if sessions == [] {
      NoStep(s, []);
      NoneJoined(|s.store|);
      NoExchanges(s.h.posted, s.queue);
    } else {
      hide Confirms;
      var first, more := sessions[0], sessions[1..];
      var u := After(s, first);
      AcceptedReply(first);
      AcceptedOne(s, first);
      StoreAfter(s, first);
      ConfirmedFrom(u, more);
      RunConcat(s, first, Flat(more));
      JoinedConcat(|s.store|, first, Flat(more));
      QueueIsKnown(s);
      ConfirmsMore(s, u, After(u, Flat(more)), sessions, JoinedIn(|s.store|, first), JoinedIn(|u.store|, Flat(more)));
    }
  }

  /** As many accepting sessions in a row as there are jobs queued or fewer, with posts at any time: they confirm
      that many jobs from the front of the queue, in order, with one frame and one answer on the wire for each. */
  lemma QueueIsConfirmed(before: seq<Event>, sessions: seq<seq<Event>>)
    requires Legal(INITIAL, before) && AllAccepted(After(INITIAL, before), sessions)
    ensures var s := After(INITIAL, before);
            !s.shutdown && |sessions| <= |s.queue| ==>
              && Legal(s, Flat(sessions))
              && var t, n := After(s, Flat(sessions)), |sessions|;
                 && t.h.confirmed == s.h.confirmed + s.queue[..n]
                 && t.queue == s.queue[n..] + JoinedIn(|PostedIn(before)|, Flat(sessions))
                 && t.h.log == s.h.log + ExchangesOf(PostedIn(before), s.queue, sessions)
  {
    hide Controlled, Reading, Backing, FewLost, Accounted, Orderly, FramesAsPosted, Legal, After, AllAccepted, Flat,
      ExchangesOf, JoinedIn, PostedIn;
    Ended(before);
    var s := After(INITIAL, before);
    if !s.shutdown && |sessions| <= |s.queue| {
      ConfirmedFrom(s, sessions);
    }
  }

  // ------------------------------------------------- that they can happen

  /** The shortest session. */
  function Session(reply: seq<byte>): seq<Event> {
    [WorkerKick, Resolved(Done), Connected(Done), Written(Done), HeaderRead(Received(reply))]
  }

  lemma KickStep(s: State)
    requires Good(s) && !s.shutdown && s.worker == Woken
    ensures Enabled(s, WorkerKick)
    ensures Next(s, WorkerKick) == s.(phase := Resolving, prev := NotConnected, worker := Checking, sentinel := true,
                                      pending := multiset{OnResolve})
  {
    hide Backing, FewLost, Faithful, Accounted, Orderly;
    assert multiset{} + multiset{OnResolve} == multiset{OnResolve};
  }

  lemma ReachesReply(s: State)
    requires Good(s) && !s.shutdown && s.worker == Woken
    ensures Legal(s, Session([])[..4])
    ensures var t := After(s, Session([])[..4]);
            && Good(t) && !t.shutdown && t.phase == ReceivingHeader && t.pending == multiset{OnHeader}
            && t.worker == Checking
  {
    hide Good, Next, Legal, After, Frame, Stored, Reading, Collects;
    var events := Session([])[..4];
    KickStep(s);
    GoodKept(s, WorkerKick);
    var s1 := Next(s, WorkerKick);
    SuccessStep(s1, Resolved(Done));
    GoodKept(s1, Resolved(Done));
    var s2 := Next(s1, Resolved(Done));
    SuccessStep(s2, Connected(Done));
    GoodKept(s2, Connected(Done));
    var s3 := Next(s2, Connected(Done));
    SuccessStep(s3, Written(Done));
    GoodKept(s3, Written(Done));
    FourSteps(s, s1, s2, s3, events);
  }

  lemma HeaderKeepsWorker(s: State, e: Event)
    requires Good(s) && e.HeaderRead? && Enabled(s, e)
    ensures Next(s, e).worker == s.worker
  {
    hide Effect, Next, Enabled, Backing, FewLost, Faithful, Accounted, Orderly;
    CompletionEffect(s, e);
    EffectOnLosses(s, Next(s, e));
  }

  lemma SessionHappens(s: State, reply: seq<byte>)
    requires Good(s) && !s.shutdown && s.worker == Woken && |reply| >= FRAME_HEADER
    ensures Legal(s, Session(reply)) && After(s, Session(reply)).worker == Checking
  {
    hide Good, Next, After, Legal;
    ReachesReply(s);
    var r, e := After(s, Session([])[..4]), HeaderRead(Received(reply));
    HeaderKeepsWorker(r, e);
    assert Session(reply) == Session([])[..4] + [e];
    AppendStep(s, Session([])[..4], e);
  }

  /** A session and the worker's next turn. */
  function Round(reply: seq<byte>): seq<Event> {
    Session(reply) + [WorkerCheck]
  }

  lemma {:induction false} NoPosts(n: nat, events: seq<Event>)
    requires forall i :: 0 <= i < |events| ==> !events[i].Post?
    ensures JoinedIn(n, events) == []
    decreases |events|
  {
    if events != [] {
      NoPosts(n, events[1..]);
    }
  }

  lemma {:induction false} ReadConcat(a: seq<Event>, b: seq<Event>)
    ensures ReadIn(a + b) == ReadIn(a) + ReadIn(b)
  {
    hide BytesOf;
    if a == [] {
      assert a + b == b;
    } else {
      assert (a + b)[1..] == a[1..] + b;
      ReadConcat(a[1..], b);
    }
  }

  lemma {:induction false} NothingRead(events: seq<Event>)
    requires forall i :: 0 <= i < |events| ==> BytesOf(events[i]) == []
    ensures ReadIn(events) == []
  {
    hide BytesOf;
    if events != [] {
      NothingRead(events[1..]);
    }
  }

  lemma ReadOnce(e: Event)
    ensures ReadIn([e]) == BytesOf(e)
  {
    NothingRead([e][1..]);
    assert BytesOf(e) + [] == BytesOf(e);
  }

  lemma OneRead(reply: seq<byte>)
    ensures ReadIn(Session(reply)) == reply && ReadIn(Round(reply)) == reply
    ensures IsSession(Session(reply)) && IsSession(Round(reply))
  {
    hide ReadIn;
    var a, b, c := Session([])[..4], [HeaderRead(Received(reply))], [WorkerCheck];
    assert Session(reply) == a + b && Round(reply) == a + b + c;
    ReadConcat(a, b);
    ReadConcat(a + b, c);
    NothingRead(a);
    NothingRead(c);
    ReadOnce(b[0]);
    assert [] + reply + [] == reply;
  }

  function Rounds(replies: seq<seq<byte>>): seq<seq<Event>> {
    if replies == [] then [] else [Round(replies[0])] + Rounds(replies[1..])
  }

  ghost predicate AllAcceptances(replies: seq<seq<byte>>) {
    forall i :: 0 <= i < |replies| ==> IsAcceptance(replies[i])
  }

  lemma RoundHappens(s: State, reply: seq<byte>)
    requires Good(s) && !s.shutdown && s.worker == Woken && s.queue != [] && IsAcceptance(reply)
    ensures Legal(s, Round(reply))
    ensures var t := After(s, Round(reply));
            Good(t) && !t.shutdown && t.queue == s.queue[1..] && (t.queue != [] ==> t.worker == Woken)
  {
    hide Good, Legal, After, IsSession, FirstSent, ReadIn, JoinedIn;
    OneRead(reply);
    SessionHappens(s, reply);
    AppendStep(s, Session(reply), WorkerCheck);
    AcceptedOne(s, Session(reply));
    AcceptedOne(s, Round(reply));
    NoPosts(|s.store|, Session(reply));
    NoPosts(|s.store|, Round(reply));
    assert s.queue[1..] + [] == s.queue[1..];
  }

  lemma {:induction false} RoundsHappen(s: State, replies: seq<seq<byte>>)
    requires Good(s) && !s.shutdown && |replies| <= |s.queue| && AllAcceptances(replies)
    requires replies != [] ==> s.worker == Woken
    ensures |Rounds(replies)| == |replies| && AllAccepted(s, Rounds(replies))
    ensures forall e :: e in Flat(Rounds(replies)) ==> !e.Post?
    decreases |replies|
  {
    hide Good, Legal, After, IsSession, IsAcceptance, ReadIn;
    if replies != [] {
      RoundHappens(s, replies[0]);
      OneRead(replies[0]);
      RoundsHappen(After(s, Round(replies[0])), replies[1..]);
      assert Rounds(replies)[0] == Round(replies[0]) && Rounds(replies)[1..] == Rounds(replies[1..]);
    }
  }

  /** A queue that is served by accepting replies empties: from every reachable state in which the worker has found
      a job, as many accepting replies as there are jobs queued or fewer confirm that many. */
  lemma QueueIsWorkedOff(before: seq<Event>, replies: seq<seq<byte>>)
    requires Legal(INITIAL, before) && AllAcceptances(replies)
    ensures var s := After(INITIAL, before);
            s.worker == Woken && !s.shutdown && |replies| <= |s.queue| ==>
              && |Rounds(replies)| == |replies| && Legal(s, Flat(Rounds(replies)))
              && var t, n := After(s, Flat(Rounds(replies))), |replies|;
                 && t.h.confirmed == s.h.confirmed + s.queue[..n] && t.queue == s.queue[n..]
                 && t.h.log == s.h.log + ExchangesOf(PostedIn(before), s.queue, Rounds(replies))
  {
    hide Good, Legal, After, AllAccepted, AllAcceptances, Flat, Rounds, ExchangesOf, JoinedIn, PostedIn;
    Reachable(before);
    var s := After(INITIAL, before);
    if s.worker == Woken && !s.shutdown && |replies| <= |s.queue| {
      RoundsHappen(s, replies);
      QueueIsConfirmed(before, Rounds(replies));
      NoPosts(|PostedIn(before)|, Flat(Rounds(replies)));
      assert s.queue[|replies|..] + [] == s.queue[|replies|..];
    }
  }

  lemma ReadyToSend(message: Packables, begin: seq<Event>)
    requires begin == [Post(message), Start, WorkerBegin, WorkerCheck]
    ensures Legal(INITIAL, begin)
    ensures var s := After(INITIAL, begin);
            && s.worker == Woken && !s.shutdown && s.queue == [Posted(0)] && s.store == [message]
            && s.h.log == [] && s.h.confirmed == [] && s.h.posted == [message]
  {
    hide Legal, After;
    var s1 := Next(INITIAL, begin[0]);
    var s2 := Next(s1, begin[1]);
    var s3 := Next(s2, begin[2]);
    FourSteps(INITIAL, s1, s2, s3, begin);
  }

  /** From posting to confirmation: a transmitter that is given a message and started has, after one session
      without network errors and an accepting reply, sent the message's frame once and confirmed it. */
  lemma FirstMessageConfirmed(message: Packables, reply: seq<byte>)
    requires |reply| >= FRAME_HEADER && ReplyOf(reply).Status? && ReplyOf(reply).value >= 0
    ensures var begin := [Post(message), Start, WorkerBegin, WorkerCheck];
            && Legal(INITIAL, begin) && Legal(After(INITIAL, begin), Session(reply))
            && var t := After(After(INITIAL, begin), Session(reply));
               && t.phase == NotConnected && t.queue == [] && t.h.confirmed == [Posted(0)]
               && t.h.log == [Sent(Posted(0), Frame(message)), Answered(Posted(0), ReplyOf(reply).value)]
  {
    hide Good, ReplyOf, Frame, ReadIn, JoinedIn, IsSession, Legal, After;
    var begin := [Post(message), Start, WorkerBegin, WorkerCheck];
    ReadyToSend(message, begin);
    var s := After(INITIAL, begin);
    Reachable(begin);
    SessionHappens(s, reply);
    OneRead(reply);
    AcceptedOne(s, Session(reply));
    NoPosts(|s.store|, Session(reply));
    assert ElementsOf(s.h.posted, Posted(0)) == message;
  }
}
