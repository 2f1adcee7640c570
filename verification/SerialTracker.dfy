/**
  Tracker threads that do not overlap, with any exporters: then the shared
  fields are what the packets give one after the other. And that two tracker
  threads that do overlap can leave a state that no order of them gives.
 */
module SerialTracker {
  import opened Conntrack
  import opened CtMessage
  import opened Tracker
  import opened TrackerRuns
  import opened Snapshot
  import opened RepeatTest

  // ---------------------------------------------------------------- the sequential meaning

  /** The fields that threads share, of a connection's state. */
  function SharedOf(t: TcpState): Shared {
    Shared(t.state, t.lastSeq, t.lastEnd, t.lastAck)
  }

  /** What one packet does to them. */
  function Take(x: Shared, g: Segment): Shared {
    var n := NextState(x.state, g);
    if g.seqno == x.seqno && g.ackno == x.ack then x.(state := n)
    else Shared(n, g.seqno, SegEnd(g), if g.ackno != 0 then g.ackno else x.ack)
  }

  /** It is what the tracker does to the connection, and what a commit stores. */
  lemma TakeIsAbsorb(t: TcpState, g: Segment)
    ensures SharedOf(Absorb(t, g)) == Take(SharedOf(t), g)
    ensures !Repeats(t, g) ==> Of(SharedOf(Absorb(t, g))) == Store(Of(SharedOf(t)), g)
  {
    hide SegEnd, NextState;
  }

  function TakeAll(x: Shared, segs: seq<Segment>): Shared
    decreases |segs|
  {
    if segs == [] then x else Take(TakeAll(x, segs[..|segs| - 1]), segs[|segs| - 1])
  }

  /** The tracked packets of a history. */
  function TrackedOf(history: seq<Arrival>): seq<Segment>
    decreases |history|
  {
    if history == [] then []
    else
      var earlier := TrackedOf(history[..|history| - 1]);
      match Tracked(history[|history| - 1]) case None => earlier case Some(g) => earlier + [g]
  }

  lemma TakeAllAppend(x: Shared, segs: seq<Segment>, g: Segment)
    ensures TakeAll(x, segs + [g]) == Take(TakeAll(x, segs), g)
  {
    assert (segs + [g])[..|segs|] == segs;
    hide Take;
  }

  /** Taking the tracked packets of a history one after the other is the run of that history. */
  lemma {:induction false} TakeAllIsRun(t: TcpState, history: seq<Arrival>)
    ensures SharedOf(Run(t, history)) == TakeAll(SharedOf(t), TrackedOf(history))
    decreases |history|
  {
    if history != [] {
      var earlier, last := history[..|history| - 1], Tracked(history[|history| - 1]);
      TakeAllIsRun(t, earlier);
      if last.Some? {
        TakeIsAbsorb(Run(t, earlier), last.value);
        TakeAllAppend(SharedOf(t), TrackedOf(earlier), last.value);
      }
      hide Take, Absorb, TakeAll, Tracked, SharedOf;
    }
  }

  // ---------------------------------------------------------------- threads that do not overlap

  /** A tracker thread that has begun and has not ended. */
  predicate Busy(t: Thread) {
    !Exporter(t) && !t.Decide? && !t.Skipped? && !t.Committed?
  }

  predicate Ended(t: Thread) {
    t.Skipped? || t.Committed?
  }

  predicate OneBusy(s: System) {
    forall i, j :: 0 <= i < j < |s.threads| ==> !Busy(s.threads[i]) || !Busy(s.threads[j])
  }

  /** At no moment of the schedule are two tracker threads busy. */
  ghost predicate Serial(s: System, schedule: seq<nat>)
    decreases |schedule|
  {
    OneBusy(Execute(s, schedule)) && (schedule != [] ==> Serial(s, schedule[..|schedule| - 1]))
  }

  /** The packets of the threads that have ended, in the order in which they did. */
  function EndedBy(s: System, schedule: seq<nat>): seq<Segment>
    decreases |schedule|
  {
    if schedule == [] then []
    else
      var n := |schedule| - 1;
      var i, before, after := schedule[n], Execute(s, schedule[..n]), Execute(s, schedule);
      EndedBy(s, schedule[..n])
      + if i < |s.threads| && !Ended(before.threads[i]) && Ended(after.threads[i]) then [after.threads[i].seg] else []
  }

  /** What a busy thread has made so far of the fields `x`, into `y`; what it does next leads to `Take(x, seg)`. */
  predicate Doing(t: Thread, x: Shared, y: Shared) {
    match t
    case DecideAck(g) => y == x && !SynMoves(x.state, g)
    case Compare(g, n) => y == x && n == NextState(x.state, g)
    case Move(g, n) => y == x && n == NextState(x.state, g)
    case TestSeq(g) => y == x.(state := NextState(x.state, g))
    case TestAck(g) => y == x.(state := NextState(x.state, g)) && g.seqno == x.seqno
    case Enter(g) => y == x.(state := NextState(x.state, g)) && !(g.seqno == x.seqno && g.ackno == x.ack)
    case WriteSeq(g) => y == x.(state := NextState(x.state, g)) && !(g.seqno == x.seqno && g.ackno == x.ack)
    case WriteEnd(g) =>
      y == x.(state := NextState(x.state, g), seqno := g.seqno) && !(g.seqno == x.seqno && g.ackno == x.ack)
    case WriteAck(g) =>
      && y == x.(state := NextState(x.state, g), seqno := g.seqno, end := SegEnd(g))
      && !(g.seqno == x.seqno && g.ackno == x.ack)
    case Release(g) => y == Take(x, g)
    case _ => true
  }

  /** One step of a busy thread, or the first step of one. */
  lemma BusyStep(s: System, i: nat, x: Shared)
    requires i < |s.threads| && !Exporter(s.threads[i]) && !Ended(s.threads[i])
    requires if Busy(s.threads[i]) then Doing(s.threads[i], x, s.shared) else s.shared == x
    ensures var r := Turn(s, i);
            if Ended(r.threads[i]) then r.threads[i].seg == s.threads[i].seg && r.shared == Take(x, s.threads[i].seg)
            else Busy(r.threads[i]) && Doing(r.threads[i], x, r.shared)
  {
    BranchesAreNextState(x.state, s.threads[i].seg);
    hide SegEnd, NextState;
  }

  /** The steps of other threads: exporters and ended ones change nothing that is shared. */
  lemma IdleStep(s: System, i: nat)
    requires i < |s.threads| ==> Exporter(s.threads[i]) || Ended(s.threads[i])
    ensures Turn(s, i).shared == s.shared
    ensures i < |s.threads| ==> !Busy(Turn(s, i).threads[i]) && (Ended(Turn(s, i).threads[i]) <==> Ended(s.threads[i]))
    ensures i < |s.threads| ==> !Turn(s, i).threads[i].Decide?
  {
    if i < |s.threads| && Exporter(s.threads[i]) {
      ExporterStays(s, i);
    }
    hide SegEnd;
  }

  /** Where a run without overlap stands: between two packets, or in the middle of one. */
  predicate Stands(s: System, x: Shared) {
    && (forall i :: 0 <= i < |s.threads| && Busy(s.threads[i]) ==> Doing(s.threads[i], x, s.shared))
    && ((forall i :: 0 <= i < |s.threads| ==> !Busy(s.threads[i])) ==> s.shared == x)
  }

  lemma SerialStep(s: System, i: nat, x: Shared)
    requires Stands(s, x) && OneBusy(s) && OneBusy(Turn(s, i))
    ensures var r := Turn(s, i);
            var ends := i < |s.threads| && !Ended(s.threads[i]) && Ended(r.threads[i]);
            Stands(r, if ends then Take(x, r.threads[i].seg) else x)
  {
    var r := Turn(s, i);
    StepMovesOne(s, i);
    if i < |s.threads| && !Exporter(s.threads[i]) && !Ended(s.threads[i]) {
      OthersIdle(s, r, i, x);
      BusyStep(s, i, x);
      assert !Ended(r.threads[i]) || !Busy(r.threads[i]);
    } else {
      IdleStep(s, i);
    }
    hide Turn, Busy, Ended, Doing, Take, Exporter;
  }

  /** While one thread is busy, or begins, no other is. */
  lemma OthersIdle(s: System, r: System, i: nat, x: Shared)
    requires i < |s.threads| == |r.threads| && !Exporter(s.threads[i]) && !Ended(s.threads[i]) && r == Turn(s, i)
    requires Stands(s, x) && OneBusy(s) && OneBusy(r)
    ensures forall j :: 0 <= j < |s.threads| && j != i ==> !Busy(s.threads[j])
    ensures if Busy(s.threads[i]) then Doing(s.threads[i], x, s.shared) else s.shared == x
  {
    StepMovesOne(s, i);
    FirstStepBusy(s, i);
    hide Turn, Busy, Ended, Doing, Exporter;
    forall j | 0 <= j < |s.threads| && j != i
      ensures !Busy(s.threads[j])
    {
      var a, b := if i < j then i else j, if i < j then j else i;
      assert !Busy(s.threads[a]) || !Busy(s.threads[b]);
      assert !Busy(r.threads[a]) || !Busy(r.threads[b]);
    }
  }

  lemma FirstStepBusy(s: System, i: nat)
    requires i < |s.threads| && !Exporter(s.threads[i]) && !Ended(s.threads[i])
    ensures Busy(s.threads[i]) || Busy(Turn(s, i).threads[i])
  {
  }

  lemma {:induction false} SerialStands(s: System, schedule: seq<nat>)
    requires Fresh(s) && Serial(s, schedule)
    ensures Stands(Execute(s, schedule), TakeAll(s.shared, EndedBy(s, schedule)))
    decreases |schedule|
  {
    if schedule != [] {
      var n := |schedule| - 1;
      var i, before := schedule[n], Execute(s, schedule[..n]);
      SerialStands(s, schedule[..n]);
      var earlier := EndedBy(s, schedule[..n]);
      SerialStep(before, i, TakeAll(s.shared, earlier));
      assert Execute(s, schedule) == Turn(before, i);
      hide Turn, Execute, Stands, Take;
      if i < |s.threads| && !Ended(before.threads[i]) && Ended(Execute(s, schedule).threads[i]) {
        TakeAllAppend(s.shared, earlier, Execute(s, schedule).threads[i].seg);
      } else {
        assert earlier + [] == earlier;
      }
    }
  }

  /**
    Without overlap the threads are the sequential tracker, whatever the exporters do: whenever no tracker thread is
    busy, the state and the three numbers are those the ended packets give one after the other. So what holds of every
    history holds of every such schedule: of the numbers, of the end, and of the state.
   */
  lemma SerialIsSequential(s: System, schedule: seq<nat>, t0: TcpState, history: seq<Arrival>)
    requires Fresh(s) && Serial(s, schedule) && s.shared == SharedOf(t0)
    requires EndedBy(s, schedule) == TrackedOf(history)
    requires forall i :: 0 <= i < |s.threads| ==> !Busy(Execute(s, schedule).threads[i])
    ensures Execute(s, schedule).shared == SharedOf(Run(t0, history))
  {
    SerialStands(s, schedule);
    TakeAllIsRun(t0, history);
    hide Execute, Run, TakeAll, EndedBy, TrackedOf, Busy, Doing, SharedOf;
  }

  // ---------------------------------------------------------------- threads that do

  /** A SYN, and an acknowledgement. */
  const SYN := Segment(1, 0, true, false, false, false, 0)
  const ACK := Segment(2, 10, false, true, false, false, 0)

  const TCP_CONNTRACK_NONE: Byte := 0

  function TwoThreads(): System {
    System([Decide(SYN), Decide(ACK)], Shared(TCP_CONNTRACK_NONE, 0, 0, 0), None, [], [])
  }

  lemma ExecuteStep(s: System, schedule: seq<nat>, i: nat)
    ensures Execute(s, schedule + [i]) == Turn(Execute(s, schedule), i)
  {
    assert (schedule + [i])[..|schedule|] == schedule;
    hide Turn;
  }

  /**
    The state is read before it is written, outside the lock: a SYN that was looked at first can put the connection
    back to SYN_RECV after an acknowledgement has established it, which neither order of the two packets does.
   */
  lemma StateLost()
    ensures var r := Execute(TwoThreads(), [] + [0] + [0] + [1] + [1] + [1] + [1] + [0]);
            r.shared.state == TCP_CONNTRACK_SYN_RECV && !Decides(r.threads[0]) && !Decides(r.threads[1])
    ensures var x := TwoThreads().shared;
            && Take(Take(x, SYN), ACK).state == TCP_CONNTRACK_ESTABLISHED
            && Take(Take(x, ACK), SYN).state == TCP_CONNTRACK_ESTABLISHED
  {
    var s := TwoThreads();
    var x := s.shared;
    var y := x.(state := TCP_CONNTRACK_ESTABLISHED);
    ExecuteStep(s, [], 0);
    ExecuteStep(s, [] + [0], 0);
    ExecuteStep(s, [] + [0] + [0], 1);
    ExecuteStep(s, [] + [0] + [0] + [1], 1);
    ExecuteStep(s, [] + [0] + [0] + [1] + [1], 1);
    ExecuteStep(s, [] + [0] + [0] + [1] + [1] + [1], 1);
    ExecuteStep(s, [] + [0] + [0] + [1] + [1] + [1] + [1], 0);
    assert Execute(s, []) == s;
    hide Execute;
    var moving := At(s, 0, Move(SYN, TCP_CONNTRACK_SYN_RECV));
    assert Turn(s, 0) == At(s, 0, Compare(SYN, TCP_CONNTRACK_SYN_RECV));
    assert Turn(Turn(s, 0), 0) == moving;
    var both := At(moving, 1, Compare(ACK, TCP_CONNTRACK_ESTABLISHED));
    assert Turn(moving, 1) == At(moving, 1, DecideAck(ACK));
    assert Turn(Turn(moving, 1), 1) == both;
    var late := At(moving.(shared := y), 1, TestSeq(ACK));
    assert Turn(both, 1) == At(both, 1, Move(ACK, TCP_CONNTRACK_ESTABLISHED));
    assert Turn(Turn(both, 1), 1) == late;
    assert Turn(late, 0) == At(late.(shared := y.(state := TCP_CONNTRACK_SYN_RECV)), 0, TestSeq(SYN));
  }

  /** The thread has not yet settled the state. */
  predicate Decides(t: Thread) {
    t.Decide? || t.DecideAck? || t.Compare? || t.Move?
  }
}
