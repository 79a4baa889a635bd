/** The transmitter as a state machine: its fields, the asynchronous operations outstanding, the histories the
    whole-run properties speak of, and one function for each atomic step. */
module Transmission {
  import opened BigEndian
  import opened Codec
  import opened Messages

  const HEARTBEAT := 100
  const MAX_DELAY := 64

  /** An entry of the queue: a handle on the message posted as number `id`, whose element objects every copy
      shares, or the empty message an empty queue yields. */
  datatype Job = Posted(id: nat) | Placeholder

  datatype Phase =
    | NotConnected | Resolving | Connecting | Sending | ReceivingHeader | ReceivingConfirmation
    | ProcessingConfirmation | Error | Success

  /** The order of the enumeration. */
  function Ordinal(p: Phase): nat {
    match p
    case NotConnected => 0
    case Resolving => 1
    case Connecting => 2
    case Sending => 3
    case ReceivingHeader => 4
    case ReceivingConfirmation => 5
    case ProcessingConfirmation => 6
    case Error => 7
    case Success => 8
  }

  /** Where the worker thread stands. `Woken` has found or been told of a job and has not acted yet. */
  datatype Worker = Stopped | Spawned | Checking | Waiting | Woken

  /** An asynchronous operation whose completion handler has not run. */
  datatype Handler = OnResolve | OnConnect | OnWrite | OnHeader | OnConfirmation | OnTimer

  /** A line of the wire log: a frame handed to the socket, or the status of a confirmation. */
  datatype Entry = Sent(job: Job, frame: seq<byte>) | Answered(job: Job, status: int16)

  /** What the run has done so far. `received` are the bytes read in the present session, `waits` the delays in
      milliseconds since the last success or worker start, `stops` counts the effective stop requests. */
  datatype History = History(
    posted: seq<Packables>, log: seq<Entry>, confirmed: seq<Job>, dropped: seq<Job>, lost: seq<Job>,
    received: seq<byte>, waits: seq<nat>, stops: nat)

  datatype State = State(
    phase: Phase, prev: Phase, worker: Worker, running: bool, shutdown: bool, errDelay: nat,
    queue: seq<Job>, sending: Job, buf: Option<seq<byte>>, confirmationLength: word16, sentinel: bool,
    pending: multiset<Handler>, store: seq<Packables>, h: History)

  const INITIAL := State(NotConnected, NotConnected, Stopped, false, false, 1, [], Placeholder, None, 0, false,
                         multiset{}, [], History([], [], [], [], [], [], [], 0))

  datatype Outcome = Aborted | Erred | Done

  datatype Reception = ReadAborted | ReadErred | Received(bytes: seq<byte>)

  datatype Event =
    | Post(message: Packables)
    | Drop
    | Start
    | Stop
    | WorkerBegin
    | WorkerCheck
    | WorkerWake(timedOut: bool)
    | WorkerKick
    | Resolved(outcome: Outcome)
    | Connected(outcome: Outcome)
    | Written(outcome: Outcome)
    | HeaderRead(header: Reception)
    | ConfirmationRead(confirmation: Reception)
    | TimerFired(aborted: bool)

  // ------------------------------------------------- entering a phase

  /** The elements of a job: none for an empty message. */
  function ElementsOf(store: seq<Packables>, job: Job): Packables {
    if job.Posted? && job.id < |store| then store[job.id] else []
  }

  function EnterNotConnected(s: State): State {
    s.(phase := NotConnected, buf := None, confirmationLength := 0, sentinel := false)
  }

  function EnterResolving(s: State): State {
    s.(phase := Resolving, sentinel := true, pending := s.pending + multiset{OnResolve})
  }

  function EnterConnecting(s: State): State {
    s.(phase := Connecting, pending := s.pending + multiset{OnConnect})
  }

  function Front(queue: seq<Job>): Job {
    if queue == [] then Placeholder else queue[0]
  }

  function Rest(queue: seq<Job>): seq<Job> {
    if queue == [] then [] else queue[1..]
  }

  /** Serializing a message normalizes its elements in place. */
  function Stored(store: seq<Packables>, job: Job): seq<Packables> {
    if job.Posted? && job.id < |store| then store[job.id := AllNormalized(store[job.id])] else store
  }

  /** The message at the front of the queue is taken and serialized. */
  function EnterSending(s: State): State
  {
    var job := Front(s.queue);
    var frame := Frame(ElementsOf(s.store, job));
    s.(phase := Sending, queue := Rest(s.queue), sending := job, buf := Some(frame),
       store := Stored(s.store, job), pending := s.pending + multiset{OnWrite},
       h := s.h.(log := s.h.log + [Sent(job, frame)]))
  }

  function EnterReceivingHeader(s: State): State {
    s.(phase := ReceivingHeader, buf := Some([]), pending := s.pending + multiset{OnHeader},
       h := s.h.(received := []))
  }

  /** An error while or after a message was taken puts the message back at the front. */
  function EnterError(s: State): State {
    s.(phase := Error,
       queue := if Ordinal(s.prev) >= Ordinal(Sending) then [s.sending] + s.queue else s.queue,
       pending := s.pending + multiset{OnTimer},
       h := s.h.(waits := s.h.waits + [HEARTBEAT * s.errDelay]))
  }

  function EnterSuccess(s: State): State {
    EnterNotConnected(s.(prev := Success))
  }

  /** The unread bytes of the buffer. */
  function Bytes(buf: Option<seq<byte>>): seq<byte> {
    if buf.Some? then buf.value else []
  }

  predicate Accepts(body: seq<byte>) {
    CategoryOf(body) == MtConfirmMessage && ParseConfirmation(body).Parsed?
  }

  function EnterProcessing(s: State): State
    requires |Bytes(s.buf)| >= s.confirmationLength
  {
    var body := Bytes(s.buf)[..s.confirmationLength];
    var s := s.(prev := ProcessingConfirmation);
    if !Accepts(body) then EnterError(s)
    else
      var status := StatusOf(ParseConfirmation(body).es);
      var answered := s.h.(log := s.h.log + [Answered(s.sending, status)]);
      var rest := Some(Bytes(s.buf)[s.confirmationLength..]);
      if status < 0 then EnterError(s.(buf := rest, h := answered))
      else EnterSuccess(s.(buf := rest, errDelay := 1,
                           h := answered.(confirmed := s.h.confirmed + [s.sending], waits := [])))
  }

  function EnterReceivingConfirmation(s: State): State
  {
    if |Bytes(s.buf)| < s.confirmationLength then
      s.(phase := ReceivingConfirmation, pending := s.pending + multiset{OnConfirmation})
    else EnterProcessing(s.(prev := ReceivingConfirmation))
  }

  /** From `p` into the error phase. */
  function Fail(s: State, p: Phase): State {
    EnterError(s.(prev := p))
  }

  // ---------------------------------------------------------- the steps

  function InFlight(s: State): seq<Job> {
    if s.phase in {Sending, ReceivingHeader, ReceivingConfirmation} then [s.sending] else []
  }

  /** The handler `k` leaves the set of outstanding ones. */
  function Complete(s: State, k: Handler): State {
    s.(pending := s.pending - multiset{k})
  }

  function NextResolved(s: State, outcome: Outcome): State {
    var s := Complete(s, OnResolve);
    if outcome == Aborted || s.phase != Resolving || s.shutdown then s
    else if outcome == Erred then Fail(s, Resolving)
    else EnterConnecting(s.(prev := Resolving))
  }

  function NextConnected(s: State, outcome: Outcome): State
  {
    var s := Complete(s, OnConnect);
    if outcome == Aborted || s.phase != Connecting || s.shutdown then s
    else if outcome == Erred then Fail(s, Connecting)
    else EnterSending(s.(prev := Connecting))
  }

  function NextWritten(s: State, outcome: Outcome): State {
    var s := Complete(s, OnWrite);
    if outcome == Aborted then s
    else
      var s := s.(buf := None);
      if s.phase != Sending || s.shutdown then s
      else if outcome == Erred then Fail(s, Sending)
      else EnterReceivingHeader(s.(prev := Sending))
  }

  function NextHeaderRead(s: State, r: Reception): State
    requires r.Received? ==> |r.bytes| >= FRAME_HEADER
  {
    var s := Complete(s, OnHeader);
    if r == ReadAborted || s.phase != ReceivingHeader || s.shutdown then s
    else if r == ReadErred then Fail(s, ReceivingHeader)
    else
      var s := s.(buf := Some(r.bytes[FRAME_HEADER..]), h := s.h.(received := r.bytes));
      if r.bytes[0] != PROTOCOL then Fail(s, ReceivingHeader)
      else EnterReceivingConfirmation(s.(confirmationLength := Get16(r.bytes, 1), prev := ReceivingHeader))
  }

  function NextConfirmationRead(s: State, r: Reception): State
  {
    var s := Complete(s, OnConfirmation);
    if r == ReadAborted || s.phase != ReceivingConfirmation || s.shutdown then s
    else if r == ReadErred then Fail(s, ReceivingConfirmation)
    else EnterReceivingConfirmation(s.(buf := Some(Bytes(s.buf) + r.bytes), prev := ReceivingConfirmation,
                                       h := s.h.(received := s.h.received + r.bytes)))
  }

  function NextTimer(s: State, aborted: bool): State {
    var s := Complete(s, OnTimer);
    if aborted then s
    else EnterNotConnected(s.(errDelay := if s.errDelay < MAX_DELAY then s.errDelay * 2 else s.errDelay,
                              prev := s.phase))
  }

  /** The start of the worker thread; a message still held from before the last stop is given up. */
  function NextWorkerBegin(s: State): State {
    s.(errDelay := 1, prev := NotConnected, phase := NotConnected, worker := Checking,
       h := s.h.(lost := s.h.lost + InFlight(s), waits := []))
  }

  /** One turn of the worker's loop, up to the point where it waits for a job. */
  function NextWorkerCheck(s: State): State {
    if s.shutdown then s.(sentinel := false, running := false, worker := Stopped)
    else if s.phase != NotConnected then s
    else s.(worker := if s.queue != [] then Woken else Waiting)
  }

  function NextKick(s: State): State {
    EnterResolving(s.(prev := s.phase, worker := Checking))
  }

  /** When an event can happen. A worker step needs the worker at that point and a completion its operation; an
      operation is aborted only by a stop; the handlers pending at a stop run before the next start; the header
      read delivers at least the header, and a read that succeeds at least one byte. */
  predicate Enabled(s: State, e: Event) {
    match e
    case Post(_) => true
    case Drop => true
    case Start => s.running || s.pending == multiset{}
    case Stop => true
    case WorkerBegin => s.worker == Spawned
    case WorkerCheck => s.worker == Checking
    case WorkerWake(_) => s.worker == Waiting
    case WorkerKick => s.worker == Woken
    case Resolved(outcome) => OnResolve in s.pending && (outcome == Aborted ==> s.shutdown)
    case Connected(outcome) => OnConnect in s.pending && (outcome == Aborted ==> s.shutdown)
    case Written(outcome) => OnWrite in s.pending && (outcome == Aborted ==> s.shutdown)
    case HeaderRead(r) =>
      OnHeader in s.pending && (r == ReadAborted ==> s.shutdown) && (r.Received? ==> |r.bytes| >= FRAME_HEADER)
    case ConfirmationRead(r) =>
      OnConfirmation in s.pending && (r == ReadAborted ==> s.shutdown) && (r.Received? ==> |r.bytes| > 0)
    case TimerFired(aborted) => OnTimer in s.pending && (aborted ==> s.shutdown)
  }

  function Next(s: State, e: Event): State
    requires Enabled(s, e)
  {
    match e
    case Post(message) =>
      s.(queue := s.queue + [Posted(|s.store|)], store := s.store + [message],
         h := s.h.(posted := s.h.posted + [message]))
    case Drop => s.(queue := [], h := s.h.(dropped := s.h.dropped + s.queue))
    case Start => if s.running then s else s.(running := true, shutdown := false, worker := Spawned)
    case Stop =>
      if !s.running then s
      else s.(shutdown := true, h := s.h.(stops := if s.shutdown then s.h.stops else s.h.stops + 1))
    case WorkerBegin => NextWorkerBegin(s)
    case WorkerCheck => NextWorkerCheck(s)
    case WorkerWake(timedOut) => s.(worker := if timedOut then Checking else Woken)
    case WorkerKick => NextKick(s)
    case Resolved(outcome) => NextResolved(s, outcome)
    case Connected(outcome) => NextConnected(s, outcome)
    case Written(outcome) => NextWritten(s, outcome)
    case HeaderRead(r) => NextHeaderRead(s, r)
    case ConfirmationRead(r) => NextConfirmationRead(s, r)
    case TimerFired(aborted) => NextTimer(s, aborted)
  }

  // ---------------------------------------------------------------- runs

  predicate Legal(s: State, events: seq<Event>)
    decreases |events|
  {
    events == [] || (Enabled(s, events[0]) && Legal(Next(s, events[0]), events[1..]))
  }

  function After(s: State, events: seq<Event>): State
    requires Legal(s, events)
    decreases |events|
  {
    if events == [] then s else After(Next(s, events[0]), events[1..])
  }

  lemma NoStep(s: State, events: seq<Event>)
    requires events == []
    ensures Legal(s, events) && After(s, events) == s
  {
  }

  lemma OneStep(s: State, e: Event, events: seq<Event>)
    requires events != [] && events[0] == e && Enabled(s, e) && Legal(Next(s, e), events[1..])
    ensures Legal(s, events) && After(s, events) == After(Next(s, e), events[1..])
  {
  }

  lemma FourSteps(s: State, s1: State, s2: State, s3: State, events: seq<Event>)
    requires |events| == 4
    requires Enabled(s, events[0]) && Next(s, events[0]) == s1
    requires Enabled(s1, events[1]) && Next(s1, events[1]) == s2
    requires Enabled(s2, events[2]) && Next(s2, events[2]) == s3
    requires Enabled(s3, events[3])
    ensures Legal(s, events) && After(s, events) == Next(s3, events[3])
  {
    hide Next, Enabled, Legal, After;
    assert events[1..][1..] == events[2..] && events[2..][1..] == events[3..];
    NoStep(Next(s3, events[3]), events[3..][1..]);
    OneStep(s3, events[3], events[3..]);
    OneStep(s2, events[2], events[2..]);
    OneStep(s1, events[1], events[1..]);
    OneStep(s, events[0], events);
  }

  lemma {:induction false} AppendStep(s: State, events: seq<Event>, e: Event)
    requires Legal(s, events) && Enabled(After(s, events), e)
    ensures Legal(s, events + [e]) && After(s, events + [e]) == Next(After(s, events), e)
    decreases |events|
  {
    hide Next, Enabled;
    if events == [] {
      assert (events + [e])[1..] == [];
    } else {
      assert (events + [e])[1..] == events[1..] + [e];
      AppendStep(Next(s, events[0]), events[1..], e);
    }
  }

  lemma {:induction false} RunConcat(s: State, a: seq<Event>, b: seq<Event>)
    requires Legal(s, a) && Legal(After(s, a), b)
    ensures Legal(s, a + b) && After(s, a + b) == After(After(s, a), b)
    decreases |a|
  {
    hide Next, Enabled;
    if a == [] {
      assert a + b == b;
    } else {
      assert (a + b)[1..] == a[1..] + b;
      RunConcat(Next(s, a[0]), a[1..], b);
    }
  }
}
