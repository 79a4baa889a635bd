/** Where every message is. The ledger forgets phases, buffers and timers: it keeps which jobs are confirmed, in
    flight, queued, dropped and lost, and what went over the wire. */
module Ledger {
  import opened BigEndian
  import opened Transmission

  datatype Ledger = Ledger(posted: nat, confirmed: seq<Job>, flight: seq<Job>, queue: seq<Job>,
                           dropped: seq<Job>, lost: seq<Job>, log: seq<Entry>)

  /** What can happen to a ledger. */
  datatype Move =
    | Keep
    | Add
    | Take(frame: seq<byte>)
    | PutBack
    | Reject(bad: int16)
    | Confirm(good: int16)
    | Clear
    | GiveUp

  predicate CanMove(l: Ledger, m: Move) {
    match m
    case Take(_) => l.flight == []
    case Reject(status) => status < 0 && |l.flight| == 1
    case Confirm(status) => status >= 0 && |l.flight| == 1
    case _ => true
  }

  function Moved(l: Ledger, m: Move): Ledger
    requires CanMove(l, m)
  {
    match m
    case Keep => l
    case Add => l.(posted := l.posted + 1, queue := l.queue + [Posted(l.posted)])
    case Take(frame) =>
      l.(flight := [Front(l.queue)], queue := Rest(l.queue), log := l.log + [Sent(Front(l.queue), frame)])
    case PutBack => l.(flight := [], queue := l.flight + l.queue)
    case Reject(status) =>
      l.(flight := [], queue := l.flight + l.queue, log := l.log + [Answered(l.flight[0], status)])
    case Confirm(status) =>
      l.(flight := [], confirmed := l.confirmed + l.flight, log := l.log + [Answered(l.flight[0], status)])
    case Clear => l.(queue := [], dropped := l.dropped + l.queue)
    case GiveUp => l.(flight := [], lost := l.lost + l.flight)
  }

  // ----------------------------------------------------------- the messages

  function Numbers(job: Job): seq<nat> {
    if job.Posted? then [job.id] else []
  }

  /** The numbers of the posted messages among the jobs, without placeholders. */
  function Ids(jobs: seq<Job>): seq<nat> {
    if jobs == [] then [] else Numbers(jobs[0]) + Ids(jobs[1..])
  }

  function Upto(n: nat): (r: seq<nat>)
    ensures |r| == n
  {
    seq(n, i requires 0 <= i < n => i)
  }

  /** Confirmed, then in flight, then queued. */
  function Line(l: Ledger): seq<nat> {
    Ids(l.confirmed) + Ids(l.flight) + Ids(l.queue)
  }

  ghost predicate Increasing(s: seq<nat>) {
    forall i, j :: 0 <= i < j < |s| ==> s[i] < s[j]
  }

  ghost predicate Below(s: seq<nat>, n: nat) {
    forall i :: 0 <= i < |s| ==> s[i] < n
  }

  lemma {:induction false} IdsConcat(a: seq<Job>, b: seq<Job>)
    ensures Ids(a + b) == Ids(a) + Ids(b)
  {
    hide Numbers;
    if a == [] {
      assert a + b == b;
    } else {
      IdsConcat(a[1..], b);
      assert (a + b)[1..] == a[1..] + b;
      var first, more := Numbers(a[0]), Ids(a[1..]);
      assert first + (more + Ids(b)) == first + more + Ids(b);
    }
  }

  /** Every message posted is in exactly one place, and the messages still due or done keep their order. */
  ghost predicate Accounted(l: Ledger) {
    && |l.flight| <= 1
    && Increasing(Line(l)) && Below(Line(l), l.posted)
    && multiset(Line(l)) + multiset(Ids(l.dropped)) + multiset(Ids(l.lost)) == multiset(Upto(l.posted))
    && (l.dropped == [] && l.lost == [] ==> Line(l) == Upto(l.posted))
  }

  lemma IdsOfOne(job: Job)
    ensures Ids([job]) == Numbers(job)
  {
    assert [job][1..] == [];
  }

  lemma IdsOfQueue(queue: seq<Job>)
    ensures Ids([Front(queue)]) + Ids(Rest(queue)) == Ids(queue)
  {
    IdsOfOne(Front(queue));
  }

  lemma IdsOfNone(jobs: seq<Job>)
    requires jobs == []
    ensures Ids(jobs) == []
  {
  }

  /** How a move changes the line. */
  lemma LineMoved(l: Ledger, m: Move)
    requires CanMove(l, m) && |l.flight| <= 1
    ensures var l' := Moved(l, m);
            match m
            case Add => Line(l') == Line(l) + [l.posted]
            case Clear =>
              Line(l') == Ids(l.confirmed) + Ids(l.flight) && Ids(l'.dropped) == Ids(l.dropped) + Ids(l.queue)
            case GiveUp =>
              Line(l') == Ids(l.confirmed) + Ids(l.queue) && Ids(l'.lost) == Ids(l.lost) + Ids(l.flight)
            case _ => Line(l') == Line(l)
  {
    hide Ids, Front, Rest;
    assert Ids([]) == [] by { IdsOfNone([]); }
    match m {
      case Keep =>
      case Add =>
        IdsConcat(l.queue, [Posted(l.posted)]);
        IdsOfOne(Posted(l.posted));
      case Take(_) => IdsOfQueue(l.queue);
      case PutBack => IdsConcat(l.flight, l.queue);
      case Reject(_) => IdsConcat(l.flight, l.queue);
      case Confirm(_) => IdsConcat(l.confirmed, l.flight);
      case Clear => IdsConcat(l.dropped, l.queue);
      case GiveUp => IdsConcat(l.lost, l.flight);
    }
  }

  lemma OneMore(s: seq<nat>, n: nat)
    requires Increasing(s) && Below(s, n)
    ensures Increasing(s + [n]) && Below(s + [n], n + 1)
    ensures Upto(n + 1) == Upto(n) + [n]
  {
  }

  lemma AddKeepsAccounts(l: Ledger)
    requires Accounted(l)
    ensures Accounted(Moved(l, Add))
  {
    hide Ids, Line, Upto, Increasing, Below;
    LineMoved(l, Add);
    OneMore(Line(l), l.posted);
  }

  lemma NothingGone(l: Ledger, m: Move)
    requires m.Clear? || m.GiveUp?
    ensures var l' := Moved(l, m);
            l'.dropped == [] && l'.lost == [] ==> l.dropped == [] && l.lost == [] && Line(l') == Line(l)
  {
  }

  lemma GivenUp(a: seq<nat>, b: seq<nat>, c: seq<nat>, n: nat)
    requires Increasing(a + b + c) && Below(a + b + c, n)
    ensures Increasing(a + c) && Below(a + c, n)
    ensures multiset(a + b + c) == multiset(a + c) + multiset(b)
    ensures c == [] ==> a + c == a && a + b + c == a + b
  {
    var whole := a + b + c;
    forall i, j | 0 <= i < j < |a + c|
      ensures (a + c)[i] < (a + c)[j]
    {
      var i', j' := if i < |a| then i else i + |b|, if j < |a| then j else j + |b|;
      assert whole[i'] < whole[j'];
    }
    forall i | 0 <= i < |a + c|
      ensures (a + c)[i] < n
    {
      assert whole[if i < |a| then i else i + |b|] < n;
    }
  }

  lemma ClearKeepsAccounts(l: Ledger)
    requires Accounted(l)
    ensures Accounted(Moved(l, Clear))
  {
    hide Ids;
    LineMoved(l, Clear);
    var kept := Ids(l.confirmed) + Ids(l.flight);
    assert kept + Ids(l.queue) + [] == Line(l) && kept + [] == kept;
    GivenUp(kept, Ids(l.queue), [], l.posted);
    NothingGone(l, Clear);
  }

  lemma GiveUpKeepsAccounts(l: Ledger)
    requires Accounted(l)
    ensures Accounted(Moved(l, GiveUp))
  {
    hide Ids;
    LineMoved(l, GiveUp);
    GivenUp(Ids(l.confirmed), Ids(l.flight), Ids(l.queue), l.posted);
    NothingGone(l, GiveUp);
  }

  lemma AccountedKept(l: Ledger, m: Move)
    requires CanMove(l, m) && Accounted(l)
    ensures Accounted(Moved(l, m))
  {
    hide Ids, Line;
    match m {
      case Add => AddKeepsAccounts(l);
      case Clear => ClearKeepsAccounts(l);
      case GiveUp => GiveUpKeepsAccounts(l);
      case _ => LineMoved(l, m);
    }
  }

  // ----------------------------------------------------------- the wire log

  ghost predicate InOrder(log: seq<Entry>) {
    forall i, j :: 0 <= i < j < |log| && log[i].job.Posted? && log[j].job.Posted? ==> log[i].job.id <= log[j].job.id
  }

  ghost predicate Adjacent(log: seq<Entry>) {
    forall i, j, k :: 0 <= i < j < k < |log| && log[i].job.Posted? && log[i].job == log[k].job ==>
      log[j].job == log[i].job
  }

  ghost predicate Paired(log: seq<Entry>) {
    forall i :: 0 <= i < |log| && log[i].Answered? ==> 0 < i && log[i - 1].Sent? && log[i - 1].job == log[i].job
  }

  predicate Accepted(e: Entry) {
    e.Answered? && e.status >= 0
  }

  ghost predicate AcceptedOnce(log: seq<Entry>) {
    forall i, j :: 0 <= i < j < |log| && log[i].job.Posted? && Accepted(log[i]) ==> log[j].job != log[i].job
  }

  /** The messages go over the wire in order; all entries of one message are adjacent; an answer follows the
      frame it answers; a message that was accepted does not appear again. */
  ghost predicate WellOrdered(log: seq<Entry>) {
    InOrder(log) && Adjacent(log) && Paired(log) && AcceptedOnce(log)
  }

  /** The accepted jobs, in the order of their answers. */
  function AcceptedIn(log: seq<Entry>): seq<Job> {
    if log == [] then []
    else
      var n := |log| - 1;
      AcceptedIn(log[..n]) + if Accepted(log[n]) then [log[n].job] else []
  }

  ghost predicate Numbered(log: seq<Entry>, due: seq<Job>, posted: nat) {
    && (forall i :: 0 <= i < |log| && log[i].job.Posted? ==> log[i].job.id < posted)
    && (forall j :: 0 <= j < |due| && due[j].Posted? ==> due[j].id < posted)
  }

  /** Only the first job due can be a placeholder, and the messages due are in order. */
  ghost predicate DueInOrder(due: seq<Job>) {
    && (forall j :: 0 < j < |due| ==> due[j].Posted?)
    && (forall i, j :: 0 <= i < j < |due| && due[i].Posted? ==> due[i].id < due[j].id)
  }

  /** No message on the log is behind one that is due, and the first due is the only one it may contain. */
  ghost predicate LogBefore(log: seq<Entry>, due: seq<Job>)
    requires DueInOrder(due)
  {
    && (forall i, j :: 0 <= i < |log| && 0 < j < |due| && log[i].job.Posted? ==> log[i].job.id < due[j].id)
    && (forall i :: 0 <= i < |log| && due != [] && log[i].job.Posted? && due[0].Posted? ==> log[i].job.id <= due[0].id)
  }

  /** If the first message due is on the log, the log ends with it, and it has not been accepted. */
  ghost predicate FirstIsLatest(log: seq<Entry>, due: seq<Job>) {
    forall i :: 0 <= i < |log| && due != [] && log[i].job.Posted? && log[i].job == due[0] ==>
      log[|log| - 1].job == due[0] && !Accepted(log[i])
  }

  /** How the log stands to the jobs still due, first the one in flight. */
  ghost predicate Ahead(log: seq<Entry>, due: seq<Job>, posted: nat) {
    Numbered(log, due, posted) && DueInOrder(due) && LogBefore(log, due) && FirstIsLatest(log, due)
  }

  function Due(l: Ledger): seq<Job> {
    l.flight + l.queue
  }

  ghost predicate Orderly(l: Ledger) {
    && |l.flight| <= 1
    && WellOrdered(l.log) && Ahead(l.log, Due(l), l.posted) && AcceptedIn(l.log) == l.confirmed
    && (l.flight != [] ==> l.log != [] && l.log[|l.log| - 1].Sent? && l.log[|l.log| - 1].job == l.flight[0])
  }

  lemma AppendInOrder(log: seq<Entry>, due: seq<Job>, e: Entry)
    requires InOrder(log) && DueInOrder(due) && LogBefore(log, due) && due != [] && e.job == due[0]
    ensures InOrder(log + [e])
  {
  }

  lemma AppendAdjacent(log: seq<Entry>, due: seq<Job>, e: Entry)
    requires Adjacent(log) && FirstIsLatest(log, due) && due != [] && e.job == due[0]
    ensures Adjacent(log + [e])
  {
    var log' := log + [e];
    forall i, j, k | 0 <= i < j < k < |log'| && log'[i].job.Posted? && log'[i].job == log'[k].job
      ensures log'[j].job == log'[i].job
    {
      if k == |log| {
        assert log[i].job == due[0] && log[|log| - 1].job == due[0];
        assert log[j] == log'[j];
        assert j < |log| - 1 ==> log[j].job == log[i].job;
      } else {
        assert log[i] == log'[i] && log[j] == log'[j] && log[k] == log'[k];
      }
    }
  }

  lemma AppendPaired(log: seq<Entry>, e: Entry)
    requires Paired(log)
    requires e.Answered? ==> log != [] && log[|log| - 1].Sent? && log[|log| - 1].job == e.job
    ensures Paired(log + [e])
  {
  }

  lemma AppendAcceptedOnce(log: seq<Entry>, due: seq<Job>, e: Entry)
    requires AcceptedOnce(log) && FirstIsLatest(log, due) && due != [] && e.job == due[0]
    ensures AcceptedOnce(log + [e])
  {
  }

  /** The first job due is sent or answered. */
  lemma AppendWellOrdered(log: seq<Entry>, due: seq<Job>, posted: nat, e: Entry)
    requires WellOrdered(log) && Ahead(log, due, posted) && due != [] && e.job == due[0]
    requires e.Answered? ==> log != [] && log[|log| - 1].Sent? && log[|log| - 1].job == e.job
    ensures WellOrdered(log + [e])
  {
    hide InOrder, Adjacent, Paired, AcceptedOnce, Numbered, LogBefore, FirstIsLatest, DueInOrder;
    AppendInOrder(log, due, e);
    AppendAdjacent(log, due, e);
    AppendPaired(log, e);
    AppendAcceptedOnce(log, due, e);
  }

  lemma AheadKeepingFirst(log: seq<Entry>, due: seq<Job>, posted: nat, e: Entry)
    requires Ahead(log, due, posted) && due != [] && e.job == due[0] && !Accepted(e)
    ensures Ahead(log + [e], due, posted)
  {
  }

  lemma AheadOfRest(log: seq<Entry>, due: seq<Job>, posted: nat)
    requires Ahead(log, due, posted) && due != []
    ensures Ahead(log, due[1..], posted)
  {
    assert forall j :: 0 <= j < |due| - 1 ==> due[1..][j] == due[j + 1];
  }

  lemma AheadAccepted(log: seq<Entry>, due: seq<Job>, posted: nat, e: Entry)
    requires Ahead(log, due, posted) && due != [] && e.job == due[0]
    ensures Ahead(log + [e], due[1..], posted)
  {
    assert forall j :: 0 <= j < |due| - 1 ==> due[1..][j] == due[j + 1];
  }

  lemma AheadOfPosted(log: seq<Entry>, due: seq<Job>, posted: nat)
    requires Ahead(log, due, posted)
    ensures Ahead(log, due + [Posted(posted)], posted + 1)
  {
  }

  lemma AheadOfFlight(log: seq<Entry>, flight: seq<Job>, queue: seq<Job>, posted: nat)
    requires Ahead(log, flight + queue, posted)
    ensures Ahead(log, flight, posted)
  {
    assert forall j :: 0 <= j < |flight| ==> (flight + queue)[j] == flight[j];
  }

  lemma AcceptedNext(log: seq<Entry>, e: Entry)
    ensures AcceptedIn(log + [e]) == AcceptedIn(log) + if Accepted(e) then [e.job] else []
  {
    assert (log + [e])[..|log|] == log;
  }

  lemma AheadOfNothing(log: seq<Entry>, due: seq<Job>, posted: nat)
    requires due == [] && Ahead(log, due, posted)
    ensures Ahead(log, [Placeholder], posted)
  {
  }

  lemma TakeKeepsOrder(l: Ledger, frame: seq<byte>)
    requires l.flight == [] && Orderly(l)
    ensures Orderly(Moved(l, Take(frame)))
  {
    hide WellOrdered, Ahead, AcceptedIn;
    var due := [Front(l.queue)] + Rest(l.queue);
    var e := Sent(Front(l.queue), frame);
    AcceptedNext(l.log, e);
    assert Due(l) == l.queue;
    if l.queue == [] {
      AheadOfNothing(l.log, l.queue, l.posted);
      assert due == [Placeholder];
    } else {
      assert due == l.queue;
    }
    AppendWellOrdered(l.log, due, l.posted, e);
    AheadKeepingFirst(l.log, due, l.posted, e);
  }

  lemma AnswerKeepsOrder(l: Ledger, status: int16)
    requires |l.flight| == 1 && Orderly(l)
    ensures Orderly(Moved(l, if status < 0 then Reject(status) else Confirm(status)))
  {
    hide WellOrdered, Ahead, AcceptedIn;
    var e := Answered(l.flight[0], status);
    AcceptedNext(l.log, e);
    AppendWellOrdered(l.log, Due(l), l.posted, e);
    if status < 0 {
      AheadKeepingFirst(l.log, Due(l), l.posted, e);
      assert [] + (l.flight + l.queue) == Due(l);
    } else {
      AheadAccepted(l.log, Due(l), l.posted, e);
      assert Due(l)[1..] == l.queue == [] + l.queue;
      assert l.flight == [l.flight[0]];
    }
  }

  lemma OrderlyKept(l: Ledger, m: Move)
    requires CanMove(l, m) && Orderly(l)
    ensures Orderly(Moved(l, m))
  {
    hide WellOrdered, Ahead, AcceptedIn;
    match m {
      case Keep =>
      case Add =>
        AheadOfPosted(l.log, Due(l), l.posted);
        assert Due(Moved(l, m)) == Due(l) + [Posted(l.posted)];
      case Take(frame) => TakeKeepsOrder(l, frame);
      case PutBack => assert Due(Moved(l, m)) == Due(l);
      case Reject(status) => AnswerKeepsOrder(l, status);
      case Confirm(status) => AnswerKeepsOrder(l, status);
      case Clear =>
        AheadOfFlight(l.log, l.flight, l.queue, l.posted);
        assert Due(Moved(l, m)) == l.flight;
      case GiveUp =>
        if l.flight == [] {
          assert Due(Moved(l, m)) == Due(l);
        } else {
          AheadOfRest(l.log, Due(l), l.posted);
          assert Due(Moved(l, m)) == Due(l)[1..];
        }
    }
  }
}
