/** The transmitter object. Every method is one atomic step of a thread: it keeps the invariant of the reachable
    states and takes the state where the state machine says. */
module Transmitter {
  import opened BigEndian
  import opened Codec
  import opened Messages
  import opened MessageObjects
  import opened Transmission
  import opened TransmitterRuns
  import opened JobQueue

  /** What `StateMachine` makes of a state whose phase has just been set. */
  function Entered(s: State): State
    requires s.phase == ProcessingConfirmation ==> |Bytes(s.buf)| >= s.confirmationLength
  {
    match s.phase
    case NotConnected => EnterNotConnected(s)
    case Resolving => EnterResolving(s)
    case Connecting => EnterConnecting(s)
    case Sending => EnterSending(s)
    case ReceivingHeader => EnterReceivingHeader(s)
    case ReceivingConfirmation => EnterReceivingConfirmation(s)
    case ProcessingConfirmation => EnterProcessing(s)
    case Error => EnterError(s)
    case Success => EnterSuccess(s)
  }

  lemma ErrorSetsPhase(s: State, p: Phase)
    ensures EnterError(s.(phase := p)) == EnterError(s)
  {
    hide Ordinal;
  }

  lemma ProcessingSetsPhase(s: State, p: Phase)
    requires |Bytes(s.buf)| >= s.confirmationLength
    ensures EnterProcessing(s.(phase := p)) == EnterProcessing(s)
  {
    hide CategoryOf, ParseConfirmation, StatusOf, Bytes, EnterError;
    var body := Bytes(s.buf)[..s.confirmationLength];
    var here := s.(prev := ProcessingConfirmation);
    ErrorSetsPhase(here, p);
    if Accepts(body) {
      var answered := s.h.(log := s.h.log + [Answered(s.sending, StatusOf(ParseConfirmation(body).es))]);
      ErrorSetsPhase(here.(buf := Some(Bytes(s.buf)[s.confirmationLength..]), h := answered), p);
    }
  }

  /** From the phase at hand into phase `p`. */
  function Going(s: State, p: Phase): State
    requires p != ProcessingConfirmation
  {
    var s := s.(prev := s.phase);
    match p
    case NotConnected => EnterNotConnected(s)
    case Resolving => EnterResolving(s)
    case Connecting => EnterConnecting(s)
    case Sending => EnterSending(s)
    case ReceivingHeader => EnterReceivingHeader(s)
    case ReceivingConfirmation => EnterReceivingConfirmation(s)
    case Error => EnterError(s)
    case Success => EnterSuccess(s)
  }

  /** Entering a phase does not depend on the phase left. */
  lemma GoingIsEntered(s: State, p: Phase)
    requires p != ProcessingConfirmation
    ensures Going(s, p) == Entered(s.(prev := s.phase, phase := p))
  {
    hide Frame, Stored, EnterProcessing;
    if p == ReceivingConfirmation && |Bytes(s.buf)| >= s.confirmationLength {
      ProcessingSetsPhase(s.(prev := ReceivingConfirmation), p);
    }
  }

  /** Bounds the calls of `StateMachine` that may still nest. */
  function Depth(p: Phase): nat {
    match p
    case ReceivingConfirmation => 6
    case ProcessingConfirmation => 4
    case Success => 2
    case _ => 0
  }

  // The handlers as they go from phase to phase.

  lemma ResolvedStep(s: State, outcome: Outcome)
    requires Good(s) && Enabled(s, Resolved(outcome))
    ensures Good(Next(s, Resolved(outcome)))
    ensures Next(s, Resolved(outcome)) ==
            var c := Complete(s, OnResolve);
            if outcome == Aborted || c.phase != Resolving || c.shutdown then c
            else Going(c, if outcome == Erred then Error else Connecting)
  {
    hide Good, EnterNotConnected, EnterResolving, EnterConnecting, EnterSending, EnterReceivingHeader,
      EnterReceivingConfirmation, EnterError;
    GoodKept(s, Resolved(outcome));
  }

  lemma ConnectedStep(s: State, outcome: Outcome)
    requires Good(s) && Enabled(s, Connected(outcome))
    ensures Good(Next(s, Connected(outcome)))
    ensures Next(s, Connected(outcome)) ==
            var c := Complete(s, OnConnect);
            if outcome == Aborted || c.phase != Connecting || c.shutdown then c
            else Going(c, if outcome == Erred then Error else Sending)
  {
    hide Good, EnterNotConnected, EnterResolving, EnterConnecting, EnterSending, EnterReceivingHeader,
      EnterReceivingConfirmation, EnterError;
    GoodKept(s, Connected(outcome));
  }

  lemma WrittenStep(s: State, outcome: Outcome)
    requires Good(s) && Enabled(s, Written(outcome))
    ensures Good(Next(s, Written(outcome)))
    ensures Next(s, Written(outcome)) ==
            var c := Complete(s, OnWrite);
            if outcome == Aborted then c
            else
              var c := c.(buf := None);
              if c.phase != Sending || c.shutdown then c
              else Going(c, if outcome == Erred then Error else ReceivingHeader)
  {
    hide Good, EnterNotConnected, EnterResolving, EnterConnecting, EnterSending, EnterReceivingHeader,
      EnterReceivingConfirmation, EnterError;
    GoodKept(s, Written(outcome));
  }

  lemma HeaderReadStep(s: State, r: Reception)
    requires Good(s) && Enabled(s, HeaderRead(r))
    ensures Good(Next(s, HeaderRead(r))) && (r.Received? ==> |r.bytes| >= FRAME_HEADER)
    ensures Next(s, HeaderRead(r)) ==
            var c := Complete(s, OnHeader);
            if r == ReadAborted || c.phase != ReceivingHeader || c.shutdown then c
            else if r == ReadErred then Going(c, Error)
            else
              var c := c.(buf := Some(r.bytes[FRAME_HEADER..]), h := c.h.(received := r.bytes));
              if r.bytes[0] != PROTOCOL then Going(c, Error)
              else Going(c.(confirmationLength := Get16(r.bytes, 1)), ReceivingConfirmation)
  {
    hide Good, EnterNotConnected, EnterResolving, EnterConnecting, EnterSending, EnterReceivingHeader,
      EnterReceivingConfirmation, EnterError;
    GoodKept(s, HeaderRead(r));
  }

  lemma ConfirmationReadStep(s: State, r: Reception)
    requires Good(s) && Enabled(s, ConfirmationRead(r))
    ensures Good(Next(s, ConfirmationRead(r)))
    ensures Next(s, ConfirmationRead(r)) ==
            var c := Complete(s, OnConfirmation);
            if r == ReadAborted || c.phase != ReceivingConfirmation || c.shutdown then c
            else if r == ReadErred then Going(c, Error)
            else Going(c.(buf := Some(Bytes(c.buf) + r.bytes), h := c.h.(received := c.h.received + r.bytes)),
                       ReceivingConfirmation)
  {
    hide Good, EnterNotConnected, EnterResolving, EnterConnecting, EnterSending, EnterReceivingHeader,
      EnterReceivingConfirmation, EnterError;
    GoodKept(s, ConfirmationRead(r));
  }

  lemma TimerStep(s: State, aborted: bool)
    requires Good(s) && Enabled(s, TimerFired(aborted))
    ensures Good(Next(s, TimerFired(aborted)))
    ensures Next(s, TimerFired(aborted)) ==
            var c := Complete(s, OnTimer);
            if aborted then c
            else Going(c.(errDelay := if c.errDelay < MAX_DELAY then c.errDelay * 2 else c.errDelay), NotConnected)
  {
    hide Good, EnterNotConnected, EnterResolving, EnterConnecting, EnterSending, EnterReceivingHeader,
      EnterReceivingConfirmation, EnterError;
    GoodKept(s, TimerFired(aborted));
  }

  /** The category test, the parse and the status of a complete confirmation. */
  method ReadConfirmation(body: seq<byte>) returns (accepted: bool, status: int16)
    ensures accepted <==> Accepts(body)
    ensures accepted ==> status == StatusOf(ParseConfirmation(body).es)
  {
    hide CategoryOf, ParseConfirmation, StatusOf;
    accepted, status := false, -32767;
    var category := MessageCategory(body);
    if category == MtConfirmMessage {
      var confirmation := new Message();
      var outcome := confirmation.ParseConfirmMessage(body);
      if outcome == Accepted {
        accepted := true;
        status := confirmation.Status();
      }
    }
  }

  class SbdTransmitter {
    var state: Phase
    var prevState: Phase
    var running: bool
    var shutdown: bool
    var errDelay: nat
    const messageQueue: JobUnitQueue<Job>
    var sendingMessage: Job
    var buf: Option<seq<byte>>
    var confirmationLength: word16
    var sentinel: bool
    var messages: seq<Packables>
    ghost var worker: Worker
    ghost var pending: multiset<Handler>
    ghost var history: History

    ghost function State(): State
      reads this, messageQueue
    {
      Transmission.State(state, prevState, worker, running, shutdown, errDelay, messageQueue.jobs, sendingMessage, buf,
                         confirmationLength, sentinel, pending, messages, history)
    }

    ghost predicate Valid()
      reads this, messageQueue
    {
      Good(State()) && messageQueue.empty == Placeholder
    }

    constructor ()
      ensures Valid() && State() == INITIAL
    {
      hide Good;
      state, prevState, worker := NotConnected, NotConnected, Stopped;
      running, shutdown, sentinel := false, false, false;
      errDelay := 1;
      var queue := new JobUnitQueue<Job>(Placeholder);
      messageQueue := queue;
      sendingMessage, buf, confirmationLength := Placeholder, None, 0;
      messages, pending, history := [], multiset{}, INITIAL.h;
      new;
      GoodInitially();
    }

    // -------------------------------------------------- the state machine

    /** Acts on a phase just entered, and goes on through the phases that do not wait. */
    method StateMachine()
      requires messageQueue.empty == Placeholder
      requires state == ProcessingConfirmation ==> |Bytes(buf)| >= confirmationLength
      modifies this, messageQueue
      ensures State() == Entered(old(State()))
      decreases Depth(state)
    {
      hide EnterNotConnected, EnterResolving, EnterConnecting, EnterSending, EnterReceivingHeader,
        EnterReceivingConfirmation, EnterProcessing, EnterError, EnterSuccess, Bytes;
      match state
      case NotConnected => EnteringNotConnected();
      case Resolving => EnteringResolving();
      case Connecting => EnteringConnecting();
      case Sending => EnteringSending();
      case ReceivingHeader => EnteringReceivingHeader();
      case ReceivingConfirmation => EnteringReceivingConfirmation();
      case ProcessingConfirmation => EnteringProcessing();
      case Error => EnteringError();
      case Success => EnteringSuccess();
    }

    /** From the phase at hand into phase `p`: the two assignments and the call every transition makes. */
    method Enter(p: Phase)
      requires messageQueue.empty == Placeholder && p != ProcessingConfirmation
      modifies this, messageQueue
      ensures State() == Going(old(State()), p)
      decreases Depth(p) + 1
    {
      hide Entered, Going;
      GoingIsEntered(State(), p);
      prevState := state;
      state := p;
      StateMachine();
    }

    method EnteringNotConnected()
      requires state == NotConnected
      modifies this
      ensures State() == EnterNotConnected(old(State()))
    {
      buf := None;
      confirmationLength := 0;
      sentinel := false;
    }

    method EnteringResolving()
      requires state == Resolving
      modifies this
      ensures State() == EnterResolving(old(State()))
    {
      sentinel := true;
      pending := pending + multiset{OnResolve};
    }

    method EnteringConnecting()
      requires state == Connecting
      modifies this
      ensures State() == EnterConnecting(old(State()))
    {
      pending := pending + multiset{OnConnect};
    }

    method TakeJob()
      requires messageQueue.empty == Placeholder
      modifies this`sendingMessage, messageQueue
      ensures State() == old(State()).(sending := Front(old(messageQueue.jobs)), queue := Rest(old(messageQueue.jobs)))
    {
      sendingMessage := messageQueue.Get();
    }

    method EnteringSending()
      requires messageQueue.empty == Placeholder && state == Sending
      modifies this, messageQueue
      ensures State() == EnterSending(old(State()))
    {
      hide Frame, Stored, ElementsOf, Front, Rest;
      TakeJob();
      var frame := Frame(ElementsOf(messages, sendingMessage));
      messages := Stored(messages, sendingMessage);
      buf := Some(frame);
      pending := pending + multiset{OnWrite};
      history := history.(log := history.log + [Sent(sendingMessage, frame)]);
    }

    method EnteringReceivingHeader()
      requires state == ReceivingHeader
      modifies this
      ensures State() == EnterReceivingHeader(old(State()))
    {
      buf := Some([]);
      pending := pending + multiset{OnHeader};
      history := history.(received := []);
    }

    method EnteringReceivingConfirmation()
      requires messageQueue.empty == Placeholder && state == ReceivingConfirmation
      modifies this, messageQueue
      ensures State() == EnterReceivingConfirmation(old(State()))
      decreases 6, 0
    {
      hide EnterProcessing;
      if |Bytes(buf)| < confirmationLength {
        pending := pending + multiset{OnConfirmation};
      } else {
        prevState := state;
        ProcessingSetsPhase(State(), ProcessingConfirmation);
        state := ProcessingConfirmation;
        StateMachine();
      }
    }

    method EnteringError()
      requires state == Error
      modifies this, messageQueue
      ensures State() == EnterError(old(State()))
    {
      if Ordinal(prevState) >= Ordinal(Sending) {
        messageQueue.Unget(sendingMessage);
      }
      pending := pending + multiset{OnTimer};
      history := history.(waits := history.waits + [HEARTBEAT * errDelay]);
    }

    method EnteringSuccess()
      requires messageQueue.empty == Placeholder && state == Success
      modifies this, messageQueue
      ensures State() == EnterSuccess(old(State()))
      decreases 2, 0
    {
      prevState := state;
      state := NotConnected;
      StateMachine();
    }

    method EnteringProcessing()
      requires messageQueue.empty == Placeholder && state == ProcessingConfirmation
      requires |Bytes(buf)| >= confirmationLength
      modifies this, messageQueue
      ensures State() == EnterProcessing(old(State()))
      decreases 4, 0
    {
      hide Accepts, ParseConfirmation, StatusOf, EnterError, EnterSuccess;
      var body := Bytes(buf)[..confirmationLength];
      var accepted, status := ReadConfirmation(body);
      if !accepted {
        Enter(Error);
        return;
      }
      buf := Some(Bytes(buf)[confirmationLength..]);
      history := history.(log := history.log + [Answered(sendingMessage, status)]);
      if status < 0 {
        Enter(Error);
        return;
      }
      errDelay := 1;
      history := history.(confirmed := history.confirmed + [sendingMessage], waits := []);
      Enter(Success);
    }

    // ------------------------------------------------------- any thread

    method Post(message: Packables)
      requires Valid()
      modifies this, messageQueue
      ensures State() == Next(old(State()), Event.Post(message))
      ensures Valid()
    {
      hide Good;
      GoodKept(State(), Event.Post(message));
      messageQueue.Put(Posted(|messages|));
      messages := messages + [message];
      history := history.(posted := history.posted + [message]);
    }

    method DropMessages()
      requires Valid()
      modifies this, messageQueue
      ensures State() == Next(old(State()), Drop)
      ensures Valid()
    {
      hide Good;
      GoodKept(State(), Drop);
      history := history.(dropped := history.dropped + messageQueue.jobs);
      messageQueue.Clear();
    }

    method Start()
      requires Valid() && Enabled(State(), Event.Start)
      modifies this
      ensures State() == Next(old(State()), Event.Start)
      ensures Valid()
    {
      hide Good;
      GoodKept(State(), Event.Start);
      if running {
        return;
      }
      running := true;
      shutdown := false;
      worker := Spawned;
    }

    /** Asks the worker to stop and cancels what is outstanding; the worker's end is a step of its own. */
    method Stop()
      requires Valid()
      modifies this
      ensures State() == Next(old(State()), Event.Stop)
      ensures Valid()
    {
      hide Good;
      GoodKept(State(), Event.Stop);
      if !running {
        return;
      }
      history := history.(stops := if shutdown then history.stops else history.stops + 1);
      shutdown := true;
    }

    // ------------------------------------------------------- the worker

    method BeginWorker()
      requires Valid() && Enabled(State(), WorkerBegin)
      modifies this
      ensures State() == Next(old(State()), WorkerBegin)
      ensures Valid()
    {
      hide Good;
      GoodKept(State(), WorkerBegin);
      history := history.(lost := history.lost + InFlight(State()), waits := []);
      errDelay := 1;
      prevState := NotConnected;
      state := NotConnected;
      worker := Checking;
    }

    method CheckWorker()
      requires Valid() && Enabled(State(), WorkerCheck)
      modifies this
      ensures State() == Next(old(State()), WorkerCheck)
      ensures Valid()
    {
      hide Good;
      GoodKept(State(), WorkerCheck);
      if shutdown {
        sentinel := false;
        running := false;
        worker := Stopped;
        return;
      }
      if state == NotConnected {
        var wait := messageQueue.MustWait();
        worker := if wait then Waiting else Woken;
      }
    }

    /** The wait on the condition variable is over. */
    method WakeWorker(timedOut: bool)
      requires Valid() && Enabled(State(), WorkerWake(timedOut))
      modifies this
      ensures State() == Next(old(State()), WorkerWake(timedOut))
      ensures Valid()
    {
      hide Good;
      GoodKept(State(), WorkerWake(timedOut));
      worker := if timedOut then Checking else Woken;
    }

    method KickWorker()
      requires Valid() && Enabled(State(), WorkerKick)
      modifies this, messageQueue
      ensures State() == Next(old(State()), WorkerKick)
      ensures Valid()
    {
      hide Good, EnterNotConnected, EnterResolving, EnterConnecting, EnterSending, EnterReceivingHeader,
        EnterReceivingConfirmation, EnterError, Ordinal, Frame, Stored, Accepts;
      GoodKept(State(), WorkerKick);
      worker := Checking;
      Enter(Resolving);
    }

    // ---------------------------------------------- completion handlers

    /** The handler of `k` starts. */
    ghost method BeginHandler(k: Handler)
      modifies this`pending
      ensures State() == Complete(old(State()), k)
    {
      pending := pending - multiset{k};
    }

    /** The bytes of a read enter the buffer. */
    method Commit(unread: seq<byte>, ghost received: seq<byte>)
      modifies this`buf, this`history
      ensures State() == old(State()).(buf := Some(unread), h := old(history).(received := received))
    {
      buf := Some(unread);
      history := history.(received := received);
    }

    method HandleResolved(outcome: Outcome)
      requires Valid() && Enabled(State(), Resolved(outcome))
      modifies this, messageQueue
      ensures State() == Next(old(State()), Resolved(outcome))
      ensures Valid()
    {
      hide Good, Next, Enabled, Going, Get16, Bytes;
      ResolvedStep(State(), outcome);
      BeginHandler(OnResolve);
      if outcome == Aborted {
        return;
      }
      if state != Resolving || shutdown {
        return;
      }
      if outcome == Erred {
        Enter(Error);
        return;
      }
      Enter(Connecting);
    }

    /** A connection without an endpoint counts as an error. */
    method HandleConnected(outcome: Outcome)
      requires Valid() && Enabled(State(), Connected(outcome))
      modifies this, messageQueue
      ensures State() == Next(old(State()), Connected(outcome))
      ensures Valid()
    {
      hide Good, Next, Enabled, Going, Get16, Bytes;
      ConnectedStep(State(), outcome);
      BeginHandler(OnConnect);
      if outcome == Aborted {
        return;
      }
      if state != Connecting || shutdown {
        return;
      }
      if outcome == Erred {
        Enter(Error);
        return;
      }
      Enter(Sending);
    }

    method HandleWritten(outcome: Outcome)
      requires Valid() && Enabled(State(), Written(outcome))
      modifies this, messageQueue
      ensures State() == Next(old(State()), Written(outcome))
      ensures Valid()
    {
      hide Good, Next, Enabled, Going, Get16, Bytes;
      WrittenStep(State(), outcome);
      BeginHandler(OnWrite);
      if outcome == Aborted {
        return;
      }
      buf := None;
      if state != Sending || shutdown {
        return;
      }
      if outcome == Erred {
        Enter(Error);
        return;
      }
      Enter(ReceivingHeader);
    }

    method HandleHeader(r: Reception)
      requires Valid() && Enabled(State(), HeaderRead(r))
      modifies this, messageQueue
      ensures State() == Next(old(State()), HeaderRead(r))
      ensures Valid()
    {
      hide Good, Next, Enabled, Going, Get16, Bytes;
      HeaderReadStep(State(), r);
      BeginHandler(OnHeader);
      if r == ReadAborted {
        return;
      }
      if state != ReceivingHeader || shutdown {
        return;
      }
      if r == ReadErred {
        Enter(Error);
        return;
      }
      ReadHeader(r.bytes);
    }

    /** The header has arrived, perhaps with bytes of the confirmation. */
    method ReadHeader(bytes: seq<byte>)
      requires messageQueue.empty == Placeholder && |bytes| >= FRAME_HEADER
      modifies this, messageQueue
      ensures var c := old(State()).(buf := Some(bytes[FRAME_HEADER..]), h := old(history).(received := bytes));
              State() == if bytes[0] != PROTOCOL then Going(c, Error)
                         else Going(c.(confirmationLength := Get16(bytes, 1)), ReceivingConfirmation)
    {
      hide Going, Get16;
      Commit(bytes[FRAME_HEADER..], bytes);
      if bytes[0] != PROTOCOL {
        Enter(Error);
        return;
      }
      confirmationLength := Get16(bytes, 1);
      Enter(ReceivingConfirmation);
    }

    method HandleConfirmation(r: Reception)
      requires Valid() && Enabled(State(), ConfirmationRead(r))
      modifies this, messageQueue
      ensures State() == Next(old(State()), ConfirmationRead(r))
      ensures Valid()
    {
      hide Good, Next, Enabled, Going, Get16, Bytes;
      ConfirmationReadStep(State(), r);
      BeginHandler(OnConfirmation);
      if r == ReadAborted {
        return;
      }
      if state != ReceivingConfirmation || shutdown {
        return;
      }
      if r == ReadErred {
        Enter(Error);
        return;
      }
      Commit(Bytes(buf) + r.bytes, history.received + r.bytes);
      Enter(ReceivingConfirmation);
    }

    method HandleTimer(aborted: bool)
      requires Valid() && Enabled(State(), TimerFired(aborted))
      modifies this, messageQueue
      ensures State() == Next(old(State()), TimerFired(aborted))
      ensures Valid()
    {
      hide Good, Next, Enabled, Going, Get16, Bytes;
      TimerStep(State(), aborted);
      BeginHandler(OnTimer);
      if aborted {
        return;
      }
      if errDelay < MAX_DELAY {
        errDelay := errDelay * 2;
      }
      Enter(NotConnected);
    }
  }
}
