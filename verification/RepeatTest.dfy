/**
  The tracker's test for repeats, which reads the two stored numbers one after
  the other and outside the lock: what it means under every schedule, when it
  is a test against one stored pair, and that otherwise it need not be.
 */
module RepeatTest {
  import opened Conntrack
  import opened Tracker
  import opened Snapshot

  /** The pair of numbers a packet is compared with is its own. */
  predicate InForce(n: Numbers, g: Segment) {
    n.seqno == g.seqno && n.ack == g.ackno
  }

  /** No prefix of the committed packets has the packet's pair in force. */
  predicate NeverInForce(init: Numbers, log: seq<Commit>, g: Segment) {
    forall k :: 0 <= k <= |log| ==> !InForce(Fold(init, log[..k]), g)
  }

  // ---------------------------------------------------------------- moments of a schedule

  /** The system after the first `k` steps of a schedule. */
  function StateAt(s: System, schedule: seq<nat>, k: nat): (r: System)
    requires k <= |schedule|
    ensures |r.threads| == |s.threads|
  {
    Execute(s, schedule[..k])
  }

  lemma NextMoment(s: System, schedule: seq<nat>, k: nat)
    requires k < |schedule|
    ensures StateAt(s, schedule, k + 1) == Turn(StateAt(s, schedule, k), schedule[k])
  {
    assert schedule[..k + 1][..k] == schedule[..k];
    hide Turn;
  }

  lemma LastMoment(s: System, schedule: seq<nat>)
    ensures StateAt(s, schedule, |schedule|) == Execute(s, schedule)
  {
    assert schedule[..|schedule|] == schedule;
  }

  /** Turn `a` of the schedule is thread `i` testing its sequence number, and finding it stored. */
  predicate MeetsSeq(s: System, schedule: seq<nat>, i: nat, g: Segment, a: nat) {
    && i < |s.threads| && a < |schedule| && schedule[a] == i
    && StateAt(s, schedule, a).threads[i] == TestSeq(g) && StateAt(s, schedule, a).shared.seqno == g.seqno
  }

  /** Turn `b` of the schedule is thread `i` testing its acknowledgement number, and finding it stored. */
  predicate MeetsAck(s: System, schedule: seq<nat>, i: nat, g: Segment, b: nat) {
    && i < |s.threads| && b < |schedule| && schedule[b] == i
    && StateAt(s, schedule, b).threads[i] == TestAck(g) && StateAt(s, schedule, b).shared.ack == g.ackno
  }

  // ---------------------------------------------------------------- one thread

  /** The tests are still ahead of this thread. */
  predicate Ahead(t: Thread, g: Segment) {
    t == Decide(g) || t == DecideAck(g) || (t.Compare? && t.seg == g) || (t.Move? && t.seg == g) || t == TestSeq(g)
  }

  /** This thread has decided to store. */
  predicate Storing(t: Thread, g: Segment) {
    || t == Enter(g) || t == WriteSeq(g) || t == WriteEnd(g) || t == WriteAck(g) || t == Release(g)
    || t == Committed(g)
  }

  /** The places of a tracker thread, and the ways between them. */
  lemma ThreadMoves(s: System, i: nat, g: Segment)
    requires i < |s.threads|
    ensures var t, t' := s.threads[i], Turn(s, i).threads[i];
            && (Ahead(t, g) && t != TestSeq(g) ==> Ahead(t', g))
            && (t == TestSeq(g) ==> t' == if s.shared.seqno == g.seqno then TestAck(g) else Enter(g))
            && (t == TestAck(g) ==> t' == if s.shared.ack == g.ackno then Skipped(g) else Enter(g))
            && (Storing(t, g) ==> Storing(t', g))
            && (t == Skipped(g) ==> t' == Skipped(g))
  {
    hide SegEnd;
  }

  lemma ThreadAt(s: System, j: nat, i: nat, g: Segment)
    requires i < |s.threads|
    ensures j != i ==> Turn(s, j).threads[i] == s.threads[i]
    ensures Storing(s.threads[i], g) ==> Storing(Turn(s, j).threads[i], g)
    ensures s.threads[i] == Skipped(g) ==> Turn(s, j).threads[i] == Skipped(g)
  {
    StepMovesOne(s, j);
    ThreadMoves(s, i, g);
    hide Turn, Ahead, Storing;
  }

  /** A thread that has decided, one way or the other, has decided for good. */
  lemma {:induction false} DecidedForGood(s: System, schedule: seq<nat>, i: nat, g: Segment, k: nat)
    requires i < |s.threads| && k <= |schedule|
    ensures Storing(StateAt(s, schedule, k).threads[i], g) ==> Storing(Execute(s, schedule).threads[i], g)
    ensures StateAt(s, schedule, k).threads[i] == Skipped(g) ==> Execute(s, schedule).threads[i] == Skipped(g)
    decreases |schedule| - k
  {
    if k == |schedule| {
      LastMoment(s, schedule);
    } else {
      NextMoment(s, schedule, k);
      ThreadAt(StateAt(s, schedule, k), schedule[k], i, g);
      DecidedForGood(s, schedule, i, g, k + 1);
      hide StateAt, Turn, Storing, Execute;
    }
  }

  /** A thread does not move while others do. */
  lemma {:induction false} Waits(s: System, schedule: seq<nat>, i: nat, a: nat, b: nat)
    requires i < |s.threads| && a <= b <= |schedule| && forall k :: a <= k < b ==> schedule[k] != i
    ensures StateAt(s, schedule, b).threads[i] == StateAt(s, schedule, a).threads[i]
    decreases b - a
  {
    if a < b {
      NextMoment(s, schedule, b - 1);
      StepMovesOne(StateAt(s, schedule, b - 1), schedule[b - 1]);
      Waits(s, schedule, i, a, b - 1);
      hide StateAt, Turn;
    }
  }

  // ---------------------------------------------------------------- what the test means

  /** Where a thread is says what its tests have met so far. */
  ghost predicate Explained(s: System, schedule: seq<nat>, i: nat, g: Segment) {
    var t := Execute(s, schedule).threads;
    && i < |t|
    && (|| Ahead(t[i], g)
        || (t[i] == TestAck(g) && exists a :: MeetsSeq(s, schedule, i, g, a))
        || Storing(t[i], g)
        || (t[i] == Skipped(g) &&
            exists a, b :: a < b && MeetsSeq(s, schedule, i, g, a) && MeetsAck(s, schedule, i, g, b)))
  }

  lemma MeetsLonger(s: System, schedule: seq<nat>, i: nat, g: Segment, a: nat)
    requires schedule != []
    ensures MeetsSeq(s, schedule[..|schedule| - 1], i, g, a) ==> MeetsSeq(s, schedule, i, g, a)
    ensures MeetsAck(s, schedule[..|schedule| - 1], i, g, a) ==> MeetsAck(s, schedule, i, g, a)
  {
    if a < |schedule| - 1 {
      assert schedule[..|schedule| - 1][..a] == schedule[..a];
    }
    hide Execute;
  }

  lemma {:induction false} AlwaysExplained(s: System, schedule: seq<nat>, i: nat, g: Segment)
    requires i < |s.threads| && s.threads[i] == Decide(g)
    ensures Explained(s, schedule, i, g)
    decreases |schedule|
  {
    if schedule != [] {
      AlwaysExplained(s, schedule[..|schedule| - 1], i, g);
      ExplainedStep(s, schedule, i, g);
    }
  }

  lemma ExplainedStep(s: System, schedule: seq<nat>, i: nat, g: Segment)
    requires schedule != [] && Explained(s, schedule[..|schedule| - 1], i, g)
    ensures Explained(s, schedule, i, g)
  {
    var n := |schedule| - 1;
    var earlier, j := schedule[..n], schedule[n];
    var before := Execute(s, earlier);
    assert Execute(s, schedule) == Turn(before, j) && StateAt(s, schedule, n) == before;
    ThreadMoves(before, i, g);
    ThreadAt(before, j, i, g);
    forall a
      ensures MeetsSeq(s, earlier, i, g, a) ==> MeetsSeq(s, schedule, i, g, a)
      ensures MeetsAck(s, earlier, i, g, a) ==> MeetsAck(s, schedule, i, g, a)
    {
      MeetsLonger(s, schedule, i, g, a);
    }
    hide Execute, Turn, Ahead, Storing;
    if j == i && before.threads[i] == TestSeq(g) && before.shared.seqno == g.seqno {
      assert MeetsSeq(s, schedule, i, g, n);
    }
    if j == i && before.threads[i] == TestAck(g) && before.shared.ack == g.ackno {
      assert MeetsAck(s, schedule, i, g, n);
      var a: nat :| MeetsSeq(s, earlier, i, g, a);
      assert a < n && MeetsSeq(s, schedule, i, g, a);
    }
  }

  /**
    What the test means, under every schedule: a packet is skipped if and only if its sequence number was stored
    at the one moment, and its acknowledgement number at the other, at which its thread looked.
   */
  lemma SkippedIff(s: System, schedule: seq<nat>, i: nat, g: Segment)
    requires i < |s.threads| && s.threads[i] == Decide(g)
    ensures Execute(s, schedule).threads[i] == Skipped(g) <==>
            exists a, b :: a < b && MeetsSeq(s, schedule, i, g, a) && MeetsAck(s, schedule, i, g, b)
  {
    if a: nat, b: nat :| a < b && MeetsSeq(s, schedule, i, g, a) && MeetsAck(s, schedule, i, g, b) {
      MetBoth(s, schedule, i, g, b);
    }
    AlwaysExplained(s, schedule, i, g);
    assert !Ahead(Skipped(g), g) && !Storing(Skipped(g), g);
    hide Execute, Ahead, Storing, MeetsSeq, MeetsAck;
  }

  lemma MetBoth(s: System, schedule: seq<nat>, i: nat, g: Segment, b: nat)
    requires MeetsAck(s, schedule, i, g, b)
    ensures Execute(s, schedule).threads[i] == Skipped(g)
  {
    hide Execute, Turn, Ahead, Storing, StateAt;
    NextMoment(s, schedule, b);
    ThreadMoves(StateAt(s, schedule, b), i, g);
    DecidedForGood(s, schedule, i, g, b + 1);
  }

  // ---------------------------------------------------------------- when it is a test against one pair

  /** No tracker thread is in the middle of writing. */
  predicate Calm(s: System) {
    forall i :: 0 <= i < |s.threads| ==> !s.threads[i].WriteEnd? && !s.threads[i].WriteAck? && !s.threads[i].Release?
  }

  /** In a calm moment the stored numbers are those of the committed packets. */
  lemma CalmNumbers(s: System, init: Numbers)
    requires Inv(s, init) && Calm(s)
    ensures Of(s.shared) == Fold(init, s.log)
  {
    hide Fold;
  }

  lemma {:induction false} LogGrows(s: System, schedule: seq<nat>, a: nat, b: nat)
    requires a <= b <= |schedule|
    ensures StateAt(s, schedule, a).log <= StateAt(s, schedule, b).log
    decreases b - a
  {
    if a < b {
      LogGrows(s, schedule, a, b - 1);
      NextMoment(s, schedule, b - 1);
      StepRecords(StateAt(s, schedule, b - 1), schedule[b - 1]);
      hide StateAt, Turn;
    }
  }

  lemma SameLog(s: System, schedule: seq<nat>, a: nat, b: nat)
    requires a <= b <= |schedule| && |StateAt(s, schedule, b).log| <= |StateAt(s, schedule, a).log|
    ensures StateAt(s, schedule, a).log == StateAt(s, schedule, b).log
  {
    LogGrows(s, schedule, a, b);
    var x, y := StateAt(s, schedule, a).log, StateAt(s, schedule, b).log;
    hide StateAt;
    assert y == y[..|x|] == x;
  }

  lemma NumbersAt(s: System, schedule: seq<nat>, k: nat)
    requires Fresh(s) && k <= |schedule| && Calm(StateAt(s, schedule, k))
    ensures Of(StateAt(s, schedule, k).shared) == Fold(Of(s.shared), StateAt(s, schedule, k).log)
  {
    ExecuteKeeps(s, schedule[..k]);
    hide Execute, Inv, Fold, Calm;
    CalmNumbers(StateAt(s, schedule, k), Of(s.shared));
  }

  /** Thread `i` tests its sequence number at step `a`, and makes its next step at `b`. */
  predicate Tests(s: System, schedule: seq<nat>, i: nat, g: Segment, a: nat, b: nat) {
    && i < |s.threads| && a < b < |schedule| && schedule[a] == i && schedule[b] == i
    && StateAt(s, schedule, a).threads[i] == TestSeq(g)
    && forall k :: a < k < b ==> schedule[k] != i
  }

  lemma TestsFacts(s: System, schedule: seq<nat>, i: nat, g: Segment, a: nat, b: nat)
    requires Tests(s, schedule, i, g, a, b)
    ensures i < |s.threads| && a < b < |schedule| && schedule[a] == i && schedule[b] == i
    ensures StateAt(s, schedule, a).threads[i] == TestSeq(g)
    ensures StateAt(s, schedule, b).threads[i] == StateAt(s, schedule, a + 1).threads[i]
  {
    hide StateAt;
    Waits(s, schedule, i, a + 1, b);
  }

  /** A thread whose first number is not stored at its first test is not skipped. */
  lemma FirstTestFails(s: System, schedule: seq<nat>, i: nat, g: Segment, a: nat, b: nat)
    requires Tests(s, schedule, i, g, a, b) && StateAt(s, schedule, a).shared.seqno != g.seqno
    ensures Execute(s, schedule).threads[i] != Skipped(g)
  {
    assert !Storing(Skipped(g), g) && Storing(Enter(g), g);
    hide Execute, StateAt, Turn, Ahead, Storing, Tests;
    TestsFacts(s, schedule, i, g, a, b);
    NextMoment(s, schedule, a);
    ThreadMoves(StateAt(s, schedule, a), i, g);
    DecidedForGood(s, schedule, i, g, a + 1);
  }

  /** Otherwise its second test decides. */
  lemma SecondTestDecides(s: System, schedule: seq<nat>, i: nat, g: Segment, a: nat, b: nat)
    requires Tests(s, schedule, i, g, a, b) && StateAt(s, schedule, a).shared.seqno == g.seqno
    ensures Execute(s, schedule).threads[i] == Skipped(g) <==> StateAt(s, schedule, b).shared.ack == g.ackno
  {
    assert !Storing(Skipped(g), g) && Storing(Enter(g), g);
    hide Execute, StateAt, Turn, Ahead, Storing, Tests;
    TestsFacts(s, schedule, i, g, a, b);
    NextMoment(s, schedule, a);
    ThreadMoves(StateAt(s, schedule, a), i, g);
    NextMoment(s, schedule, b);
    ThreadMoves(StateAt(s, schedule, b), i, g);
    DecidedForGood(s, schedule, i, g, b + 1);
  }

  /** A thread is skipped exactly if it met its first number at its first test and its second at its second. */
  lemma SkippedByTests(s: System, schedule: seq<nat>, i: nat, g: Segment, a: nat, b: nat)
    requires Tests(s, schedule, i, g, a, b)
    ensures Execute(s, schedule).threads[i] == Skipped(g) <==>
            StateAt(s, schedule, a).shared.seqno == g.seqno && StateAt(s, schedule, b).shared.ack == g.ackno
  {
    hide Execute, StateAt, Tests;
    TestsFacts(s, schedule, i, g, a, b);
    if StateAt(s, schedule, a).shared.seqno == g.seqno {
      SecondTestDecides(s, schedule, i, g, a, b);
    } else {
      FirstTestFails(s, schedule, i, g, a, b);
    }
  }

  /**
    The condition under which the test compares with one stored pair: nobody is in the middle of writing at its two
    moments, and no packet is committed between them. Then the packet is skipped if and only if it repeats the pair
    that storing the committed packets one after the other gives.
   */
  lemma RepeatTestIff(s: System, schedule: seq<nat>, i: nat, g: Segment, a: nat, b: nat)
    requires Fresh(s) && Tests(s, schedule, i, g, a, b)
    requires Calm(StateAt(s, schedule, a)) && Calm(StateAt(s, schedule, b))
    requires |StateAt(s, schedule, a).log| == |StateAt(s, schedule, b).log|
    ensures Execute(s, schedule).threads[i] == Skipped(g) <==>
            InForce(Fold(Of(s.shared), StateAt(s, schedule, a).log), g)
  {
    SkippedByTests(s, schedule, i, g, a, b);
    NumbersAt(s, schedule, a);
    NumbersAt(s, schedule, b);
    SameLog(s, schedule, a, b);
    hide Execute, StateAt, Fold, Calm, Tests;
  }

  /**
    And only there can it go wrong: a packet that is skipped although no moment of the run had its pair in force
    was tested while some thread was in the middle of writing, or on both sides of a commit.
   */
  lemma TornOnlyInRace(s: System, schedule: seq<nat>, i: nat, g: Segment, a: nat, b: nat)
    requires Fresh(s) && a < b && MeetsSeq(s, schedule, i, g, a) && MeetsAck(s, schedule, i, g, b)
    requires NeverInForce(Of(s.shared), Execute(s, schedule).log, g)
    ensures || !Calm(StateAt(s, schedule, a)) || !Calm(StateAt(s, schedule, b))
            || |StateAt(s, schedule, a).log| < |StateAt(s, schedule, b).log|
  {
    hide Execute, Fold, Calm;
    var log, first := Execute(s, schedule).log, StateAt(s, schedule, a).log;
    LogGrows(s, schedule, a, |schedule|);
    LastMoment(s, schedule);
    assert log[..|first|] == first && !InForce(Fold(Of(s.shared), log[..|first|]), g);
    if |StateAt(s, schedule, b).log| <= |first| && Calm(StateAt(s, schedule, a)) && Calm(StateAt(s, schedule, b)) {
      SameLog(s, schedule, a, b);
      NumbersAt(s, schedule, a);
      NumbersAt(s, schedule, b);
    }
  }

  // ---------------------------------------------------------------- one tracker thread

  predicate Exporter(t: Thread) {
    || t.ExportEnter? || t.ExportState? || t.ExportRecord? || t.ExportSeq? || t.ExportAck? || t.ExportEnd?
    || t.ExportRelease? || t.Exported?
  }

  predicate OnlyTracker(s: System, i: nat) {
    forall j :: 0 <= j < |s.threads| && j != i ==> Exporter(s.threads[j])
  }

  lemma ExporterStays(s: System, j: nat)
    requires j < |s.threads| && Exporter(s.threads[j])
    ensures Exporter(Turn(s, j).threads[j])
  {
    hide SegEnd;
  }

  lemma {:induction false} OnlyTrackerStays(s: System, schedule: seq<nat>, i: nat)
    requires OnlyTracker(s, i)
    ensures OnlyTracker(Execute(s, schedule), i)
    decreases |schedule|
  {
    if schedule != [] {
      var n := |schedule| - 1;
      OnlyTrackerStays(s, schedule[..n], i);
      var before := Execute(s, schedule[..n]);
      StepMovesOne(before, schedule[n]);
      assert Execute(s, schedule) == Turn(before, schedule[n]);
      if schedule[n] < |s.threads| && schedule[n] != i {
        ExporterStays(before, schedule[n]);
      }
      hide Execute, Turn, Exporter;
    }
  }

  lemma FirstCommitted(s: System)
    requires LogOk(s)
    ensures s.log != [] ==> s.log[0].who < |s.threads| && s.threads[s.log[0].who].Committed?
  {
  }

  /** Before the only tracker thread has decided, nothing is committed and nobody writes. */
  lemma AloneIsCalm(s: System, init: Numbers, i: nat)
    requires Inv(s, init) && OnlyTracker(s, i) && i < |s.threads| && !s.threads[i].Committed?
    requires !s.threads[i].WriteEnd? && !s.threads[i].WriteAck? && !s.threads[i].Release?
    ensures Calm(s) && s.log == []
  {
    FirstCommitted(s);
    hide Fold;
  }

  /**
    With one tracker thread the test is right whatever the exporters do: it skips exactly a repeat of the first pair.
   */
  lemma OneTrackerIsRight(s: System, schedule: seq<nat>, i: nat, g: Segment, a: nat, b: nat)
    requires Fresh(s) && OnlyTracker(s, i) && Tests(s, schedule, i, g, a, b)
    ensures Execute(s, schedule).threads[i] == Skipped(g) <==> InForce(Of(s.shared), g)
  {
    ExecuteKeeps(s, schedule[..a]);
    ExecuteKeeps(s, schedule[..b]);
    OnlyTrackerStays(s, schedule[..a], i);
    OnlyTrackerStays(s, schedule[..b], i);
    NextMoment(s, schedule, a);
    ThreadMoves(StateAt(s, schedule, a), i, g);
    Waits(s, schedule, i, a + 1, b);
    hide Execute, Turn, Ahead, Storing, Inv, OnlyTracker, Fold;
    AloneIsCalm(StateAt(s, schedule, a), Of(s.shared), i);
    AloneIsCalm(StateAt(s, schedule, b), Of(s.shared), i);
    RepeatTestIff(s, schedule, i, g, a, b);
    assert Fold(Of(s.shared), []) == Of(s.shared) by {
      EmptyFold(Of(s.shared));
    }
  }

  lemma EmptyFold(n: Numbers)
    ensures Fold(n, []) == n
  {
  }

  // ---------------------------------------------------------------- and otherwise it need not be

  /** A segment without payload or flags. */
  function Bare(seqno: U32, ackno: U32): Segment {
    Segment(seqno, ackno, false, true, false, false, 0)
  }

  function Racing(): System {
    System([Decide(Bare(1, 10)), Decide(Bare(2, 20)), Decide(Bare(1, 20))],
           Shared(TCP_CONNTRACK_ESTABLISHED, 0, 0, 0), None, [], [])
  }

  lemma {:induction false} ExecuteConcat(s: System, a: seq<nat>, b: seq<nat>)
    ensures Execute(s, a + b) == Execute(Execute(s, a), b)
    decreases |b|
  {
    if b == [] {
      assert a + b == a;
    } else {
      assert (a + b)[..|a + b| - 1] == a + b[..|b| - 1];
      ExecuteConcat(s, a, b[..|b| - 1]);
    }
  }

  lemma ExecuteOne(s: System, i: nat)
    ensures Execute(s, [i]) == Turn(s, i)
  {
    assert [i][..0] == [];
    assert Execute(s, []) == s;
    hide Turn;
  }

  lemma ExecuteTwo(s: System, i: nat)
    ensures Execute(s, [i, i]) == Turn(Turn(s, i), i)
  {
    assert [i, i][..1] == [i];
    ExecuteOne(s, i);
    hide Turn;
  }

  lemma SoloTests(s: System, i: nat, g: Segment)
    requires i < |s.threads| && s.threads[i] == Decide(g) && Plain(s.shared.state, g) && g.seqno != s.shared.seqno
    ensures Execute(s, [i, i] + [i]) == At(s, i, Enter(g))
  {
    ExecuteConcat(s, [i, i], [i]);
    ExecuteTwo(s, i);
    assert Turn(s, i) == At(s, i, DecideAck(g));
    var s2 := At(s, i, TestSeq(g));
    assert Turn(At(s, i, DecideAck(g)), i) == s2;
    ExecuteOne(s2, i);
    hide Execute;
    assert Turn(s2, i) == At(s, i, Enter(g));
  }

  lemma SoloEnters(s: System, i: nat, g: Segment)
    requires i < |s.threads| && s.threads[i] == Enter(g) && s.lock == None
    ensures Execute(s, [i, i]) == At(s.(lock := Some(i), shared := s.shared.(seqno := g.seqno)), i, WriteEnd(g))
  {
    ExecuteTwo(s, i);
    hide Execute;
    assert Turn(s, i) == At(s.(lock := Some(i)), i, WriteSeq(g));
  }

  lemma SoloWrites(s: System, i: nat, g: Segment)
    requires i < |s.threads| && s.threads[i] == WriteEnd(g) && g.ackno != 0
    ensures Execute(s, [i, i]) == At(s.(shared := s.shared.(end := SegEnd(g), ack := g.ackno)), i, Release(g))
  {
    ExecuteTwo(s, i);
    hide Execute, SegEnd;
    assert Turn(s, i) == At(s.(shared := s.shared.(end := SegEnd(g))), i, WriteAck(g));
  }

  lemma SoloReleases(s: System, i: nat, g: Segment)
    requires i < |s.threads| && s.threads[i] == Release(g)
    ensures Execute(s, [i]) == At(s.(lock := None, log := s.log + [Commit(i, g)]), i, Committed(g))
  {
    ExecuteOne(s, i);
    hide Execute, SegEnd;
  }

  /** A packet of an established connection that changes no state. */
  predicate Plain(state: Byte, g: Segment) {
    state == TCP_CONNTRACK_ESTABLISHED && !g.fin && !g.rst
  }

  /** The steps of a tracker thread, if nothing keeps it waiting. */
  function Turns(i: nat): seq<nat> {
    ([i, i] + [i]) + [i, i] + [i, i] + [i]
  }

  /** A tracker thread that is let run from its start to its end, and has something new to store. */
  lemma Solo(s: System, i: nat, g: Segment)
    requires i < |s.threads| && s.threads[i] == Decide(g) && s.lock == None
    requires Plain(s.shared.state, g) && g.seqno != s.shared.seqno && g.ackno != 0
    ensures Execute(s, Turns(i)) ==
            System(s.threads[i := Committed(g)], Shared(s.shared.state, g.seqno, SegEnd(g), g.ackno), None,
                   s.log + [Commit(i, g)], s.exports)
  {
    hide Execute, SegEnd, Turn;
    ExecuteConcat(s, ([i, i] + [i]) + [i, i] + [i, i], [i]);
    ExecuteConcat(s, ([i, i] + [i]) + [i, i], [i, i]);
    ExecuteConcat(s, [i, i] + [i], [i, i]);
    SoloTests(s, i, g);
    var s2 := At(s, i, Enter(g));
    SoloEnters(s2, i, g);
    var s4 := At(s2.(lock := Some(i), shared := s.shared.(seqno := g.seqno)), i, WriteEnd(g));
    SoloWrites(s4, i, g);
    var s6 := At(s4.(shared := s4.shared.(end := SegEnd(g), ack := g.ackno)), i, Release(g));
    SoloReleases(s6, i, g);
  }

  /** A thread that finds its sequence number stored. */
  lemma SoloMeetsSeq(s: System, i: nat, g: Segment)
    requires i < |s.threads| && s.threads[i] == Decide(g) && Plain(s.shared.state, g) && g.seqno == s.shared.seqno
    ensures Execute(s, [i, i] + [i]) == At(s, i, TestAck(g))
  {
    ExecuteConcat(s, [i, i], [i]);
    ExecuteTwo(s, i);
    assert Turn(s, i) == At(s, i, DecideAck(g));
    var s2 := At(s, i, TestSeq(g));
    assert Turn(At(s, i, DecideAck(g)), i) == s2;
    ExecuteOne(s2, i);
    hide Execute;
    assert Turn(s2, i) == At(s, i, TestAck(g));
  }

  /** A schedule in which thread 2 tests its numbers on both sides of the commit of thread 1. */
  function Tearing(): seq<nat> {
    Turns(0) + ([2, 2] + [2]) + Turns(1) + [2]
  }

  /**
    The test for repeats is not a snapshot: a packet can be skipped although its pair of numbers was never
    stored, by reading the sequence number of one packet and the acknowledgement number of the next.
   */
  lemma TornTest()
    ensures Fresh(Racing())
    ensures var r := Execute(Racing(), Tearing());
            && r.threads[2] == Skipped(Bare(1, 20))
            && r.log == [Commit(0, Bare(1, 10)), Commit(1, Bare(2, 20))]
            && NeverInForce(Of(Racing().shared), r.log, Bare(1, 20))
  {
    hide Execute, Turns, Turn;
    var s := Racing();
    ExecuteConcat(s, Turns(0) + ([2, 2] + [2]) + Turns(1), [2]);
    ExecuteConcat(s, Turns(0) + ([2, 2] + [2]), Turns(1));
    ExecuteConcat(s, Turns(0), [2, 2] + [2]);
    Solo(s, 0, Bare(1, 10));
    var s1 := Execute(s, Turns(0));
    SoloMeetsSeq(s1, 2, Bare(1, 20));
    var s2 := At(s1, 2, TestAck(Bare(1, 20)));
    Solo(s2, 1, Bare(2, 20));
    var s3 := Execute(s2, Turns(1));
    TestsAck(s3, 2, Bare(1, 20));
    TwoCommits(Of(s.shared), Commit(0, Bare(1, 10)), Commit(1, Bare(2, 20)), Bare(1, 20));
    hide SegEnd, NeverInForce;
  }

  lemma TestsAck(s: System, i: nat, g: Segment)
    requires i < |s.threads| && s.threads[i] == TestAck(g) && s.shared.ack == g.ackno
    ensures Execute(s, [i]) == At(s, i, Skipped(g))
  {
    ExecuteOne(s, i);
    hide Execute;
  }

  /** After two commits, neither of which has both numbers of a packet, and with other numbers to begin with. */
  lemma TwoCommits(init: Numbers, a: Commit, b: Commit, g: Segment)
    requires a.seg.ackno != 0 && b.seg.ackno != 0
    requires init.ack != g.ackno && a.seg.ackno != g.ackno && b.seg.seqno != g.seqno
    ensures NeverInForce(init, [] + [a] + [b], g)
  {
    var log := [] + [a] + [b];
    FoldAppend(init, [], a);
    FoldAppend(init, [a], b);
    assert log[..0] == [] && log[..1] == [] + [a] == [a] && log[..2] == [a] + [b];
    EmptyFold(init);
    hide Fold;
  }
}
