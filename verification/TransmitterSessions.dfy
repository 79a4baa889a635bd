/** The sessions of the transmitter: that each ends, and how the waits after failures grow. */
module TransmitterSessions {
  import opened Messages
  import opened Transmission
  import opened TransmitterSteps
  import opened TransmitterRuns
  import opened TransmitterTheorems
  import opened Ledger

  // ---------------------------------------------------------- termination

  /** Phases still ahead and bytes still missing, as one number. */
  function Remaining(s: State): int {
    match s.phase
    case NotConnected => 0
    case Error => 1
    case ReceivingConfirmation => 1 + FRAME_HEADER + s.confirmationLength - |s.h.received|
    case ReceivingHeader => 0x1_0001
    case Sending => 0x1_0002
    case Connecting => 0x1_0003
    case Resolving => 0x1_0004
    case _ => 0
  }

  lemma FailureDecreases(s: State, t: State)
    requires Reading(s) && Fails(s, t)
    ensures 0 <= Remaining(t) < Remaining(s)
  {
    hide Answers;
  }

  lemma CollectsDecreases(s: State, t: State)
    requires Reading(s) && Collects(s, t) && (s.phase == ReceivingHeader || s.phase == ReceivingConfirmation)
    ensures 0 <= Remaining(t) < Remaining(s)
  {
  }

  lemma EffectDecreases(s: State, t: State)
    requires Reading(s) && !s.shutdown && Effect(s, t)
    ensures 0 <= Remaining(t) < Remaining(s)
  {
    hide Frame, Stored, Answers, Collects, Fails;
    if Fails(s, t) {
      FailureDecreases(s, t);
    } else if (s.phase == ReceivingHeader || s.phase == ReceivingConfirmation) && Collects(s, t) {
      CollectsDecreases(s, t);
    }
  }

  /** Every completion brings the session nearer to its end. */
  lemma DecreasesFrom(s: State, e: Event)
    requires Good(s) && !s.shutdown && Enabled(s, e) && IsCompletion(e)
    ensures 0 <= Remaining(Next(s, e)) < Remaining(s)
  {
    hide Effect, Backing, FewLost, Faithful, Accounted, Orderly;
    CompletionEffect(s, e);
    EffectDecreases(s, Next(s, e));
  }

  /** In every reachable state that was not told to stop. */
  lemma CompletionDecreases(events: seq<Event>, e: Event)
    requires Legal(INITIAL, events)
    ensures var s := After(INITIAL, events);
            !s.shutdown && Enabled(s, e) && IsCompletion(e) ==> 0 <= Remaining(Next(s, e)) < Remaining(s)
  {
    hide Good, Next, Enabled, IsCompletion, Remaining;
    Reachable(events);
    var s := After(INITIAL, events);
    if !s.shutdown && Enabled(s, e) && IsCompletion(e) {
      DecreasesFrom(s, e);
    }
  }

  function CompletionsIn(events: seq<Event>): nat {
    if events == [] then 0 else (if IsCompletion(events[0]) then 1 else 0) + CompletionsIn(events[1..])
  }

  /** Events that neither stop the transmitter nor begin a session. */
  predicate WithinSession(events: seq<Event>) {
    forall i :: 0 <= i < |events| ==> !events[i].Stop? && !events[i].WorkerKick?
  }

  lemma OtherEventsKeep(s: State, e: Event)
    requires Good(s) && !s.shutdown && Enabled(s, e) && !e.Stop? && !e.WorkerKick? && !IsCompletion(e)
    ensures !Next(s, e).shutdown && 0 <= Remaining(Next(s, e)) <= Remaining(s)
  {
    hide Backing, FewLost, Faithful, Accounted, Orderly;
  }

  lemma RemainingIsNat(s: State)
    requires Good(s)
    ensures 0 <= Remaining(s)
  {
    hide Backing, FewLost, Faithful, Accounted, Orderly;
  }

  lemma CompletionKeepsShutdown(s: State, e: Event)
    requires Good(s) && Enabled(s, e) && IsCompletion(e)
    ensures Next(s, e).shutdown == s.shutdown
  {
    hide Backing, FewLost, Faithful, Accounted, Orderly, Frame, Stored, Answers, Reading;
    CompletionEffect(s, e);
  }

  lemma {:induction false} SessionBound(s: State, events: seq<Event>)
    requires Good(s) && !s.shutdown && Legal(s, events) && WithinSession(events)
    ensures 0 <= Remaining(After(s, events)) && CompletionsIn(events) + Remaining(After(s, events)) <= Remaining(s)
    decreases |events|
  {
    hide Next, Enabled, Remaining, Good, IsCompletion;
    if events == [] {
      RemainingIsNat(s);
    } else {
      GoodKept(s, events[0]);
      if IsCompletion(events[0]) {
        DecreasesFrom(s, events[0]);
        CompletionKeepsShutdown(s, events[0]);
      } else {
        OtherEventsKeep(s, events[0]);
      }
      SessionBound(Next(s, events[0]), events[1..]);
    }
  }

  lemma ZeroMeansIdle(s: State)
    requires Good(s)
    ensures Remaining(s) <= 0x1_0004
    ensures Remaining(s) <= 0 ==> s.phase == NotConnected
  {
    hide Backing, FewLost, Faithful, Accounted, Orderly;
  }

  lemma CompletionPending(s: State)
    requires IsWaiting(s.phase) && s.pending == multiset{HandlerOf(s.phase)}
    ensures exists e :: IsCompletion(e) && Enabled(s, e)
  {
    var e := match HandlerOf(s.phase)
      case OnResolve => Resolved(Erred)
      case OnConnect => Connected(Erred)
      case OnWrite => Written(Erred)
      case OnHeader => HeaderRead(ReadErred)
      case OnConfirmation => ConfirmationRead(ReadErred)
      case OnTimer => TimerFired(false);
    assert IsCompletion(e) && Enabled(s, e);
  }

  /** Every session ends. Without stop, a session in progress always has a completion to wait for, whatever the
      network does; and after at most 65540 of them, posts and drops and worker turns interleaved at will, the
      machine is back where it started. */
  lemma SessionEnds(before: seq<Event>, session: seq<Event>)
    requires Legal(INITIAL, before) && StopsIn(before) == 0
    requires Legal(After(INITIAL, before), session) && WithinSession(session)
    ensures CompletionsIn(session) <= 0x1_0004
    ensures CompletionsIn(session) >= Remaining(After(INITIAL, before))
            ==> After(After(INITIAL, before), session).phase == NotConnected
    ensures var t := After(INITIAL, before);
            t.phase != NotConnected ==> exists e :: IsCompletion(e) && Enabled(t, e)
  {
    hide Next, Legal, After, Remaining, Enabled, Reading, Backing, FewLost, Faithful, Accounted, Orderly;
    Ended(before);
    var s := After(INITIAL, before);
    PhasesWithoutStop(before);
    SessionBound(s, session);
    ZeroMeansIdle(s);
    GoodAlways(s, session);
    ZeroMeansIdle(After(s, session));
    if s.phase != NotConnected {
      CompletionPending(s);
    }
  }

  // -------------------------------------------------------------- backoff

  function Sum(s: seq<nat>): nat {
    if s == [] then 0 else Sum(s[..|s| - 1]) + s[|s| - 1]
  }

  function TotalWait(failures: nat): nat {
    if failures <= 7 then 100 * (Power2(failures) - 1) else 100 * (127 + 64 * (failures - 7))
  }

  lemma {:induction false} SumOfDelays(waits: seq<nat>)
    requires forall i :: 0 <= i < |waits| ==> waits[i] == HEARTBEAT * Delay(i)
    ensures Sum(waits) == TotalWait(|waits|)
  {
    if waits != [] {
      var n := |waits| - 1;
      SumOfDelays(waits[..n]);
      assert Power2(7) == 128 && Power2(6) == 64;
      assert n < 7 ==> Delay(n) == Power2(n);
    }
  }

  lemma {:induction false} Power2Small(n: nat)
    requires n <= 6
    ensures 1 <= Power2(n) <= MAX_DELAY
  {
    assert Power2(6) == 64 && Power2(5) == 32 && Power2(4) == 16 && Power2(3) == 8 && Power2(2) == 4 && Power2(1) == 2;
    assert n in {0, 1, 2, 3, 4, 5, 6};
  }

  /** The delay factor is always a power of two up to 64; the n-th failure in a row since the last success or
      worker start is followed by a wait of 100 ms times the smaller of 2^(n-1) and 64; and the waits add up to
      the closed form. */
  lemma Backoff(events: seq<Event>)
    requires Legal(INITIAL, events)
    ensures var t := After(INITIAL, events);
            && (exists k :: 0 <= k <= 6 && t.errDelay == Power2(k)) && 1 <= t.errDelay <= MAX_DELAY
            && (forall i :: 0 <= i < |t.h.waits| ==>
                  t.h.waits[i] == HEARTBEAT * (if i <= 6 then Power2(i) else MAX_DELAY))
            && Sum(t.h.waits) == TotalWait(|t.h.waits|)
  {
    hide Legal, After, Controlled, Reading, FewLost, Faithful, Accounted, Orderly;
    Reachable(events);
    var t := After(INITIAL, events);
    SumOfDelays(t.h.waits);
    var n := if t.phase == Error then |t.h.waits| - 1 else |t.h.waits|;
    var k := if n >= 6 then 6 else n;
    assert Power2(6) == 64;
    assert t.errDelay == Power2(k);
    Power2Small(k);
  }
}
