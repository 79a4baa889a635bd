/** The steps of the transmitter one by one: what each completion handler can do to the machine. */
module TransmitterSteps {
  import opened BigEndian
  import opened Codec
  import opened Messages
  import opened Transmission

  // ------------------------------------------------------------- handlers

  predicate IsWaiting(p: Phase) {
    p in {Resolving, Connecting, Sending, ReceivingHeader, ReceivingConfirmation, Error}
  }

  /** The one handler that moves the machine out of a phase it waits in. */
  function HandlerOf(p: Phase): Handler
    requires IsWaiting(p)
  {
    match p
    case Resolving => OnResolve
    case Connecting => OnConnect
    case Sending => OnWrite
    case ReceivingHeader => OnHeader
    case ReceivingConfirmation => OnConfirmation
    case Error => OnTimer
  }

  predicate IsLive(w: Worker) {
    w in {Checking, Waiting, Woken}
  }

  /** At most one handler is outstanding, and it is that of the phase; the worker acts only between sessions; a
      worker that was not told to stop has exactly one handler outstanding while a session lasts, and keeps the
      service alive exactly that long. */
  ghost predicate Controlled(s: State) {
    && (s.running <==> s.worker != Stopped)
    && s.phase != ProcessingConfirmation && s.phase != Success
    && (s.pending == multiset{} || (IsWaiting(s.phase) && s.pending == multiset{HandlerOf(s.phase)}))
    && (s.worker == Spawned ==> s.pending == multiset{})
    && (s.worker == Stopped ==> s.shutdown || s.pending == multiset{})
    && (s.worker in {Waiting, Woken} ==> s.phase == NotConnected)
    && (!IsLive(s.worker) ==> !s.sentinel)
    && (IsLive(s.worker) && !s.shutdown ==>
          && (s.sentinel <==> s.phase != NotConnected)
          && (IsWaiting(s.phase) ==> s.pending == multiset{HandlerOf(s.phase)}))
    && (s.h.stops == 0 ==> !s.shutdown && (!IsLive(s.worker) ==> s.phase == NotConnected))
  }

  // ------------------------------------------- what a completion can do

  predicate IsCompletion(e: Event) {
    e.Resolved? || e.Connected? || e.Written? || e.HeaderRead? || e.ConfirmationRead? || e.TimerFired?
  }

  /** After a stop the handler of an operation does nothing. */
  ghost predicate Halts(s: State, t: State) {
    s.shutdown && t == s.(pending := multiset{}, buf := t.buf) && (s.phase != Sending ==> t.buf == s.buf)
  }

  /** A further read of the same confirmation brings bytes. */
  ghost predicate Longer(s: State, t: State) {
    s.phase == ReceivingConfirmation ==>
      t.confirmationLength == s.confirmationLength && |t.h.received| > |s.h.received|
  }

  /** In the middle of a confirmation the buffer holds what followed the header, and it is too short. */
  ghost predicate Reading(s: State) {
    s.phase == ReceivingConfirmation ==>
      && |s.h.received| >= FRAME_HEADER && s.h.received[0] == PROTOCOL
      && s.confirmationLength == Get16(s.h.received, 1)
      && s.buf == Some(s.h.received[FRAME_HEADER..]) && |s.h.received| < FRAME_HEADER + s.confirmationLength
  }

  /** A read left the confirmation incomplete. */
  ghost predicate Collects(s: State, t: State) {
    && t == s.(phase := ReceivingConfirmation, prev := t.prev, buf := t.buf, confirmationLength := t.confirmationLength,
               pending := multiset{OnConfirmation}, h := s.h.(received := t.h.received))
    && Reading(t) && Longer(s, t)
  }

  /** The session goes on with the next operation. */
  ghost predicate Advances(s: State, t: State) {
    && !s.shutdown
    && match s.phase
       case Resolving => t == s.(phase := Connecting, prev := Resolving, pending := multiset{OnConnect})
       case Connecting =>
         var frame := Frame(ElementsOf(s.store, Front(s.queue)));
         t == s.(phase := Sending, prev := Connecting, queue := Rest(s.queue), sending := Front(s.queue),
                 buf := Some(frame), store := Stored(s.store, Front(s.queue)), pending := multiset{OnWrite},
                 h := s.h.(log := s.h.log + [Sent(Front(s.queue), frame)]))
       case Sending =>
         t == s.(phase := ReceivingHeader, prev := Sending, buf := Some([]), pending := multiset{OnHeader},
                 h := s.h.(received := []))
       case ReceivingHeader => Collects(s, t)
       case ReceivingConfirmation => Collects(s, t)
       case _ => false
  }

  ghost predicate Answers(s: State, t: State, good: bool) {
    && InFlight(s) != [] && t.h.log != []
    && var last := t.h.log[|t.h.log| - 1];
       last.Answered? && last.job == s.sending && t.h.log == s.h.log + [last] && (good <==> last.status >= 0)
  }

  /** The session fails. A message that was taken is put back, and only then is the previous state `eSending` or
      later; a negative answer is the one failure that leaves a line in the log. */
  ghost predicate Fails(s: State, t: State) {
    && !s.shutdown && IsWaiting(s.phase) && s.phase != Error
    && t == s.(phase := Error, prev := t.prev, queue := InFlight(s) + s.queue, buf := t.buf,
               confirmationLength := t.confirmationLength, pending := multiset{OnTimer},
               h := s.h.(log := t.h.log, received := t.h.received, waits := s.h.waits + [HEARTBEAT * s.errDelay]))
    && (Ordinal(t.prev) >= Ordinal(Sending) <==> InFlight(s) != [])
    && (t.h.log == s.h.log || Answers(s, t, false))
  }

  /** The session ends with an accepted message. */
  ghost predicate Succeeds(s: State, t: State) {
    && !s.shutdown && (s.phase == ReceivingHeader || s.phase == ReceivingConfirmation)
    && t == s.(phase := NotConnected, prev := Success, buf := None, confirmationLength := 0, sentinel := false,
               errDelay := 1, pending := multiset{},
               h := s.h.(log := t.h.log, received := t.h.received, confirmed := s.h.confirmed + [s.sending],
                         waits := []))
    && Answers(s, t, true)
  }

  /** The delay after a failure is over. */
  ghost predicate Expires(s: State, t: State) {
    && s.phase == Error
    && t == s.(phase := NotConnected, prev := Error, buf := None, confirmationLength := 0, sentinel := false,
               errDelay := if s.errDelay < MAX_DELAY then s.errDelay * 2 else s.errDelay, pending := multiset{})
  }

  ghost predicate Effect(s: State, t: State) {
    Halts(s, t) || Advances(s, t) || Fails(s, t) || Succeeds(s, t) || Expires(s, t)
  }

  lemma ErrorEffect(s: State, c: State)
    requires !s.shutdown && IsWaiting(s.phase) && s.phase != Error
    requires c == s.(prev := c.prev, buf := c.buf, confirmationLength := c.confirmationLength, pending := multiset{},
                     h := s.h.(log := c.h.log, received := c.h.received))
    requires Ordinal(c.prev) >= Ordinal(Sending) <==> InFlight(s) != []
    requires c.h.log == s.h.log || Answers(s, c, false)
    ensures Fails(s, EnterError(c))
  {
    assert multiset{} + multiset{OnTimer} == multiset{OnTimer};
  }

  lemma FailEffect(s: State, c: State)
    requires !s.shutdown && IsWaiting(s.phase) && s.phase != Error
    requires c == s.(pending := multiset{}, buf := c.buf, h := s.h.(received := c.h.received))
    ensures Fails(s, Fail(c, s.phase))
  {
    hide Fails, EnterError;
    ErrorEffect(s, c.(prev := s.phase));
  }

  lemma ProcessingEffect(s: State, from: State)
    requires |Bytes(s.buf)| >= s.confirmationLength && s.pending == multiset{} && !from.shutdown
    requires from.phase == ReceivingHeader || from.phase == ReceivingConfirmation
    requires s == from.(prev := ReceivingConfirmation, buf := s.buf, confirmationLength := s.confirmationLength,
                        pending := multiset{}, h := from.h.(received := s.h.received))
    ensures Fails(from, EnterProcessing(s)) || Succeeds(from, EnterProcessing(s))
  {
    hide StatusOf, ParseConfirmation, CategoryOf, Fails, EnterError;
    var body, rest := Bytes(s.buf)[..s.confirmationLength], Bytes(s.buf)[s.confirmationLength..];
    var s := s.(prev := ProcessingConfirmation);
    if !Accepts(body) {
      ErrorEffect(from, s);
    } else {
      var status := StatusOf(ParseConfirmation(body).es);
      if status < 0 {
        ErrorEffect(from, s.(buf := Some(rest), h := s.h.(log := s.h.log + [Answered(s.sending, status)])));
      }
    }
  }

  lemma ReceivingEffect(s: State, from: State)
    requires s.pending == multiset{} && !from.shutdown
    requires from.phase == ReceivingHeader || from.phase == ReceivingConfirmation
    requires s == from.(prev := s.prev, buf := s.buf, confirmationLength := s.confirmationLength,
                        pending := multiset{}, h := from.h.(received := s.h.received))
    requires |s.h.received| >= FRAME_HEADER && s.h.received[0] == PROTOCOL
    requires s.confirmationLength == Get16(s.h.received, 1) && s.buf == Some(s.h.received[FRAME_HEADER..])
    requires Longer(from, s)
    ensures Effect(from, EnterReceivingConfirmation(s))
  {
    hide EnterProcessing, Fails, Succeeds;
    if |Bytes(s.buf)| >= s.confirmationLength {
      ProcessingEffect(s.(prev := ReceivingConfirmation), from);
    } else {
      assert multiset{} + multiset{OnConfirmation} == multiset{OnConfirmation};
    }
  }

  /** A completion finds no other handler outstanding and the machine in the phase that waits for it. */
  lemma Alone(s: State, k: Handler)
    requires Controlled(s) && k in s.pending
    ensures IsWaiting(s.phase) && k == HandlerOf(s.phase) && Complete(s, k) == s.(pending := multiset{})
    ensures multiset{} + multiset{k} == multiset{k}
  {
  }

  lemma ResolvedEffect(s: State, outcome: Outcome)
    requires Controlled(s) && Enabled(s, Resolved(outcome))
    ensures Effect(s, NextResolved(s, outcome))
  {
    hide Controlled, Complete, Fail, Fails, Succeeds, Expires, Collects, Frame, Stored, ElementsOf, Front, Rest;
    Alone(s, OnResolve);
    var c := Complete(s, OnResolve);
    assert multiset{} + multiset{OnConnect} == multiset{OnConnect};
    if outcome == Erred && !s.shutdown {
      FailEffect(s, c);
    }
  }

  lemma ConnectedEffect(s: State, outcome: Outcome)
    requires Controlled(s) && Enabled(s, Connected(outcome))
    ensures Effect(s, NextConnected(s, outcome))
  {
    hide Controlled, Complete, Fail, Fails, Succeeds, Expires, Collects, Frame, Stored, ElementsOf, Front, Rest;
    Alone(s, OnConnect);
    var c := Complete(s, OnConnect);
    assert multiset{} + multiset{OnWrite} == multiset{OnWrite};
    if outcome == Erred && !s.shutdown {
      FailEffect(s, c);
    }
  }

  lemma WrittenEffect(s: State, outcome: Outcome)
    requires Controlled(s) && Enabled(s, Written(outcome))
    ensures Effect(s, NextWritten(s, outcome))
  {
    hide Controlled, Complete, Fail, Fails, Succeeds, Expires, Collects, Frame, Stored, ElementsOf, Front, Rest;
    Alone(s, OnWrite);
    var c := Complete(s, OnWrite);
    assert multiset{} + multiset{OnHeader} == multiset{OnHeader};
    if outcome == Erred && !s.shutdown {
      FailEffect(s, c.(buf := None));
    }
  }

  lemma HeaderEffect(s: State, r: Reception)
    requires Controlled(s) && Enabled(s, HeaderRead(r))
    ensures Effect(s, NextHeaderRead(s, r))
  {
    hide Controlled, Complete, EnterReceivingConfirmation, Fail, Advances, Fails, Succeeds, Expires;
    Alone(s, OnHeader);
    var c := Complete(s, OnHeader);
    if !s.shutdown && r == ReadErred {
      FailEffect(s, c);
    } else if !s.shutdown && r.Received? {
      var c := c.(buf := Some(r.bytes[FRAME_HEADER..]), h := c.h.(received := r.bytes));
      if r.bytes[0] == PROTOCOL {
        ReceivingEffect(c.(confirmationLength := Get16(r.bytes, 1), prev := ReceivingHeader), s);
      } else {
        FailEffect(s, c);
      }
    }
  }

  lemma ConfirmationEffect(s: State, r: Reception)
    requires Controlled(s) && Reading(s) && Enabled(s, ConfirmationRead(r))
    ensures Effect(s, NextConfirmationRead(s, r))
  {
    hide Controlled, Complete, EnterReceivingConfirmation, Fail, Advances, Fails, Succeeds, Expires;
    Alone(s, OnConfirmation);
    var c := Complete(s, OnConfirmation);
    if !s.shutdown && r == ReadErred {
      FailEffect(s, c);
    } else if !s.shutdown && r.Received? {
      var received := s.h.received + r.bytes;
      assert received[FRAME_HEADER..] == s.h.received[FRAME_HEADER..] + r.bytes;
      ReceivingEffect(c.(buf := Some(received[FRAME_HEADER..]), h := c.h.(received := received),
                         prev := ReceivingConfirmation), s);
    }
  }

  lemma TimerEffect(s: State, aborted: bool)
    requires Controlled(s) && Enabled(s, TimerFired(aborted))
    ensures Effect(s, NextTimer(s, aborted))
  {
    hide Controlled, Complete, Advances, Fails, Succeeds;
    Alone(s, OnTimer);
  }

  /** A completion finds the machine in the phase that waits for it. */
  lemma OwnHandler(s: State, e: Event)
    requires Controlled(s) && Enabled(s, e) && IsCompletion(e)
    ensures IsWaiting(s.phase) && s.pending == multiset{HandlerOf(s.phase)}
  {
  }

  /** Everything a completion handler can do. Each finds the machine in its own phase. */
  lemma CompletionEffect(s: State, e: Event)
    requires Controlled(s) && Reading(s) && Enabled(s, e) && IsCompletion(e)
    ensures Effect(s, Next(s, e))
    ensures IsWaiting(s.phase) && s.pending == multiset{HandlerOf(s.phase)}
  {
    hide Effect, Controlled, Reading, HandlerOf, Get16, NextResolved, NextConnected, NextWritten, NextHeaderRead,
      NextConfirmationRead, NextTimer;
    OwnHandler(s, e);
    match e
    case Resolved(outcome) => ResolvedEffect(s, outcome);
    case Connected(outcome) => ConnectedEffect(s, outcome);
    case Written(outcome) => WrittenEffect(s, outcome);
    case HeaderRead(r) => HeaderEffect(s, r);
    case ConfirmationRead(r) => ConfirmationEffect(s, r);
    case TimerFired(aborted) => TimerEffect(s, aborted);
  }
}
