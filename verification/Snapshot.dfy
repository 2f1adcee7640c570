/**
  Tracker and exporter threads on one connection, any number of each, with the
  lock, the writes and the reads as separate steps. The state and the test for
  repeats are read and written outside the lock, as the code does.
 */
module Snapshot {
  import opened Conntrack
  import opened Tracker

  /** The fields that threads share. */
  datatype Shared = Shared(state: Byte, seqno: U32, end: U32, ack: U32)

  /** The fields an exporter has read; the state is read twice. */
  datatype View = View(nested: Byte, state: Byte, seqno: U32, ack: U32, end: U32)

  /**
    Where a thread is. A tracker thread reads the state for its test of SYN, again for its test of ACK, and once
    more before it changes it; `state` is the one decided on. Skipped and Committed are the ends.
   */
  datatype Thread =
    | Decide(seg: Segment)
    | DecideAck(seg: Segment)
    | Compare(seg: Segment, state: Byte)
    | Move(seg: Segment, state: Byte)
    | TestSeq(seg: Segment)
    | TestAck(seg: Segment)
    | Enter(seg: Segment)
    | WriteSeq(seg: Segment)
    | WriteEnd(seg: Segment)
    | WriteAck(seg: Segment)
    | Release(seg: Segment)
    | Skipped(seg: Segment)
    | Committed(seg: Segment)
    | ExportEnter
    | ExportState(v: View)
    | ExportRecord(v: View)
    | ExportSeq(v: View)
    | ExportAck(v: View)
    | ExportEnd(v: View)
    | ExportRelease(v: View)
    | Exported(v: View)

  /** A finished critical section of a tracker thread. */
  datatype Commit = Commit(who: nat, seg: Segment)

  /** A finished export, and how many packets had been committed when it took the lock. */
  datatype Export = Export(v: View, commits: nat)

  datatype System = System(threads: seq<Thread>, shared: Shared, lock: Option<nat>, log: seq<Commit>,
                           exports: seq<Export>)

  const NO_VIEW := View(0, 0, 0, 0, 0)

  /** The branches of the state change, each with the state it reads. */
  predicate SynMoves(state: Byte, g: Segment) {
    g.syn && state != TCP_CONNTRACK_ESTABLISHED
  }

  predicate AckMoves(state: Byte, g: Segment) {
    (g.ack && state < TCP_CONNTRACK_ESTABLISHED) || g.fin || g.rst
  }

  function AckTarget(state: Byte, g: Segment): Byte {
    if g.ack && state < TCP_CONNTRACK_ESTABLISHED then TCP_CONNTRACK_ESTABLISHED
    else if g.fin then TCP_CONNTRACK_CLOSE_WAIT
    else TCP_CONNTRACK_CLOSE
  }

  /** If the state does not change between the reads, the branches lead where the packet by itself leads. */
  lemma BranchesAreNextState(state: Byte, g: Segment)
    ensures NextState(state, g) ==
            if SynMoves(state, g) then TCP_CONNTRACK_SYN_RECV
            else if AckMoves(state, g) then AckTarget(state, g)
            else state
  {
  }

  /** One step of thread `i`, if there is one; a thread that waits for the lock stays where it is. */
  function Turn(s: System, i: nat): (r: System)
    ensures |r.threads| == |s.threads|
  {
    if i < |s.threads| then ThreadStep(s, i) else s
  }

  function ThreadStep(s: System, i: nat): (r: System)
    requires i < |s.threads|
    ensures |r.threads| == |s.threads|
  {
    var x := s.shared;
    match s.threads[i]
    case Decide(g) => At(s, i, if SynMoves(x.state, g) then Compare(g, TCP_CONNTRACK_SYN_RECV) else DecideAck(g))
    case DecideAck(g) => At(s, i, if AckMoves(x.state, g) then Compare(g, AckTarget(x.state, g)) else TestSeq(g))
    case Compare(g, n) => At(s, i, if n == x.state then TestSeq(g) else Move(g, n))
    case Move(g, n) => At(s.(shared := x.(state := n)), i, TestSeq(g))
    case TestSeq(g) => At(s, i, if g.seqno == x.seqno then TestAck(g) else Enter(g))
    case TestAck(g) => At(s, i, if g.ackno == x.ack then Skipped(g) else Enter(g))
    case Enter(g) => if s.lock.Some? then s else At(s.(lock := Some(i)), i, WriteSeq(g))
    case WriteSeq(g) => At(s.(shared := x.(seqno := g.seqno)), i, WriteEnd(g))
    case WriteEnd(g) => At(s.(shared := x.(end := SegEnd(g))), i, WriteAck(g))
    case WriteAck(g) => At(s.(shared := if g.ackno != 0 then x.(ack := g.ackno) else x), i, Release(g))
    case Release(g) => At(s.(lock := None, log := s.log + [Commit(i, g)]), i, Committed(g))
    case ExportEnter => if s.lock.Some? then s else At(s.(lock := Some(i)), i, ExportState(NO_VIEW))
    case ExportState(v) => At(s, i, ExportRecord(v.(nested := x.state)))
    case ExportRecord(v) => At(s, i, ExportSeq(v.(state := x.state)))
    case ExportSeq(v) => At(s, i, ExportAck(v.(seqno := x.seqno)))
    case ExportAck(v) => At(s, i, ExportEnd(v.(ack := x.ack)))
    case ExportEnd(v) => At(s, i, ExportRelease(v.(end := x.end)))
    case ExportRelease(v) => At(s.(lock := None, exports := s.exports + [Export(v, |s.log|)]), i, Exported(v))
    case Skipped(_) => s
    case Committed(_) => s
    case Exported(_) => s
  }

  function At(s: System, i: nat, t: Thread): System
    requires i < |s.threads|
  {
    s.(threads := s.threads[i := t])
  }

  /** A schedule: which thread moves next, any number of times. */
  function Execute(s: System, schedule: seq<nat>): System
    ensures |Execute(s, schedule).threads| == |s.threads|
    decreases |schedule|
  {
    if schedule == [] then s
    else Turn(Execute(s, schedule[..|schedule| - 1]), schedule[|schedule| - 1])
  }

  // ---------------------------------------------------------------- the sequential meaning

  /** The three numbers of a connection. */
  datatype Numbers = Numbers(seqno: U32, end: U32, ack: U32)

  function Store(n: Numbers, g: Segment): Numbers {
    Numbers(g.seqno, SegEnd(g), if g.ackno != 0 then g.ackno else n.ack)
  }

  /** The committed packets, stored one after the other. */
  function Fold(n: Numbers, log: seq<Commit>): Numbers
    decreases |log|
  {
    if log == [] then n else Store(Fold(n, log[..|log| - 1]), log[|log| - 1].seg)
  }

  function Of(x: Shared): Numbers {
    Numbers(x.seqno, x.end, x.ack)
  }

  // ---------------------------------------------------------------- the invariant

  predicate Holds(t: Thread) {
    || t.WriteSeq? || t.WriteEnd? || t.WriteAck? || t.Release?
    || t.ExportState? || t.ExportRecord? || t.ExportSeq? || t.ExportAck? || t.ExportEnd? || t.ExportRelease?
  }

  /** What the holder of the lock has done to the numbers `n`, and seen of them. */
  predicate Midway(t: Thread, n: Numbers, x: Shared) {
    match t
    case WriteEnd(g) => Of(x) == n.(seqno := g.seqno)
    case WriteAck(g) => Of(x) == n.(seqno := g.seqno, end := SegEnd(g))
    case Release(g) => Of(x) == Store(n, g)
    case ExportAck(v) => Of(x) == n && v.seqno == n.seqno
    case ExportEnd(v) => Of(x) == n && v.seqno == n.seqno && v.ack == n.ack
    case ExportRelease(v) => Of(x) == n && v.seqno == n.seqno && v.ack == n.ack && v.end == n.end
    case _ => Of(x) == n
  }

  predicate LockOk(s: System) {
    && (s.lock.Some? ==> s.lock.value < |s.threads|)
    && (forall i :: 0 <= i < |s.threads| ==> (Holds(s.threads[i]) <==> s.lock == Some(i)))
  }

  predicate NumbersOk(s: System, init: Numbers)
    requires LockOk(s)
  {
    match s.lock
    case None => Of(s.shared) == Fold(init, s.log)
    case Some(i) => Midway(s.threads[i], Fold(init, s.log), s.shared)
  }

  /** An export shows the numbers of the packets committed when it took the lock. */
  predicate ExportOk(e: Export, init: Numbers, log: seq<Commit>) {
    e.commits <= |log| && Numbers(e.v.seqno, e.v.end, e.v.ack) == Fold(init, log[..e.commits])
  }

  predicate ExportsOk(s: System, init: Numbers) {
    && (forall k :: 0 <= k < |s.exports| ==> ExportOk(s.exports[k], init, s.log))
    && (forall k, l :: 0 <= k < l < |s.exports| ==> s.exports[k].commits <= s.exports[l].commits)
  }

  /** Each committed packet belongs to a thread of its own. */
  predicate LogOk(s: System) {
    && (forall k :: 0 <= k < |s.log| ==>
          s.log[k].who < |s.threads| && s.threads[s.log[k].who] == Committed(s.log[k].seg))
    && (forall k, l :: 0 <= k < l < |s.log| ==> s.log[k].who != s.log[l].who)
  }

  predicate Inv(s: System, init: Numbers) {
    LockOk(s) && NumbersOk(s, init) && ExportsOk(s, init) && LogOk(s)
  }

  /** Threads that have not started. */
  predicate Fresh(s: System) {
    && s.lock == None && s.log == [] && s.exports == []
    && forall i :: 0 <= i < |s.threads| ==> s.threads[i].Decide? || s.threads[i].ExportEnter?
  }

  /** A step of thread `i` moves no other thread. */
  lemma StepMovesOne(s: System, i: nat)
    ensures forall j :: 0 <= j < |s.threads| && j != i ==> Turn(s, i).threads[j] == s.threads[j]
  {
    hide SegEnd;
  }

  /** What a step does to the lock. */
  lemma StepLock(s: System, i: nat)
    requires i < |s.threads| && (Holds(s.threads[i]) <==> s.lock == Some(i))
    ensures var r := Turn(s, i);
            && (r.lock == Some(i) <==> Holds(r.threads[i]))
            && (r.lock == s.lock || (s.lock.None? && r.lock == Some(i)) || (s.lock == Some(i) && r.lock.None?))
  {
    hide SegEnd;
  }

  lemma StepKeepsLock(s: System, i: nat)
    requires LockOk(s)
    ensures LockOk(Turn(s, i))
  {
    StepMovesOne(s, i);
    if i < |s.threads| {
      assert Holds(s.threads[i]) <==> s.lock == Some(i);
      StepLock(s, i);
      hide Turn, Holds;
      assert forall j :: 0 <= j < |s.threads| ==> (Holds(s.threads[j]) <==> s.lock == Some(j));
    }
  }

  lemma FoldAppend(n: Numbers, log: seq<Commit>, c: Commit)
    ensures Fold(n, log + [c]) == Store(Fold(n, log), c.seg)
  {
    assert (log + [c])[..|log|] == log;
  }

  lemma StepKeepsNumbers(s: System, i: nat, init: Numbers)
    requires LockOk(s) && NumbersOk(s, init)
    ensures LockOk(Turn(s, i)) && NumbersOk(Turn(s, i), init)
  {
    StepKeepsLock(s, i);
    assert i < |s.threads| ==> (Holds(s.threads[i]) <==> s.lock == Some(i));
    if i < |s.threads| && s.threads[i].Release? {
      FoldAppend(init, s.log, Commit(i, s.threads[i].seg));
    }
    hide Fold, LockOk, SegEnd;
  }

  /** What a step does to the two records. */
  lemma StepRecords(s: System, i: nat)
    ensures var r := Turn(s, i);
            if i < |s.threads| && s.threads[i].ExportRelease? then
              r.log == s.log && r.exports == s.exports + [Export(s.threads[i].v, |s.log|)]
            else if i < |s.threads| && s.threads[i].Release? then
              r.log == s.log + [Commit(i, s.threads[i].seg)] && r.exports == s.exports
            else r.log == s.log && r.exports == s.exports
  {
    hide SegEnd, NextState;
  }

  lemma StepKeepsExports(s: System, i: nat, init: Numbers)
    requires LockOk(s) && NumbersOk(s, init) && ExportsOk(s, init)
    ensures ExportsOk(Turn(s, i), init)
  {
    var r := Turn(s, i);
    StepRecords(s, i);
    assert i < |s.threads| ==> (Holds(s.threads[i]) <==> s.lock == Some(i));
    hide Turn, Fold;
    if i < |s.threads| && s.threads[i].ExportRelease? {
      assert s.log[..|s.log|] == s.log;
      assert ExportOk(r.exports[|s.exports|], init, r.log);
    } else if i < |s.threads| && s.threads[i].Release? {
      forall k | 0 <= k < |s.exports|
        ensures ExportOk(s.exports[k], init, r.log)
      {
        assert ExportOk(s.exports[k], init, s.log);
        assert r.log[..s.exports[k].commits] == s.log[..s.exports[k].commits];
      }
    }
  }

  /** A committed thread stays so, and a thread that releases the lock is committed. */
  lemma StepCommits(s: System, i: nat)
    requires i < |s.threads|
    ensures s.threads[i].Committed? ==> Turn(s, i).threads[i] == s.threads[i]
    ensures s.threads[i].Release? ==> Turn(s, i).threads[i] == Committed(s.threads[i].seg)
  {
  }

  lemma StepKeepsLog(s: System, i: nat)
    requires LogOk(s)
    ensures LogOk(Turn(s, i))
  {
    StepMovesOne(s, i);
    StepRecords(s, i);
    if i < |s.threads| {
      StepCommits(s, i);
    }
    hide Turn;
    var r := Turn(s, i);
    forall k | 0 <= k < |s.log|
      ensures r.threads[s.log[k].who] == Committed(s.log[k].seg)
    {
      assert s.threads[s.log[k].who] == Committed(s.log[k].seg);
    }
  }

  lemma {:induction false} ExecuteKeeps(s: System, schedule: seq<nat>)
    requires Fresh(s)
    ensures Inv(Execute(s, schedule), Of(s.shared))
    decreases |schedule|
  {
    if schedule != [] {
      var n := |schedule| - 1;
      ExecuteKeeps(s, schedule[..n]);
      var before := Execute(s, schedule[..n]);
      StepKeepsNumbers(before, schedule[n], Of(s.shared));
      StepKeepsExports(before, schedule[n], Of(s.shared));
      StepKeepsLog(before, schedule[n]);
    }
  }

  /**
    Every export is a snapshot: under any schedule of any threads, the three numbers an export carries are what
    storing the first `commits` packets one after the other gives. So sequence number and end are those of one
    packet, or the first ones; and a later export never shows an earlier moment.
   */
  lemma ExportsAreSnapshots(s: System, schedule: seq<nat>, k: nat)
    requires Fresh(s) && k < |Execute(s, schedule).exports|
    ensures var r := Execute(s, schedule);
            var e := r.exports[k];
            && e.commits <= |r.log|
            && Numbers(e.v.seqno, e.v.end, e.v.ack) == Fold(Of(s.shared), r.log[..e.commits])
            && (if e.commits == 0 then e.v.seqno == s.shared.seqno && e.v.end == s.shared.end && e.v.ack == s.shared.ack
                else
                  var c := r.log[e.commits - 1];
                  && c.who < |s.threads| && r.threads[c.who] == Committed(c.seg)
                  && e.v.seqno == c.seg.seqno && e.v.end == SegEnd(c.seg))
            && (forall l :: k < l < |r.exports| ==> e.commits <= r.exports[l].commits)
  {
    ExecuteKeeps(s, schedule);
    var r := Execute(s, schedule);
    assert ExportOk(r.exports[k], Of(s.shared), r.log);
    if r.exports[k].commits > 0 {
      var p := r.log[..r.exports[k].commits];
      assert p[|p| - 1] == r.log[r.exports[k].commits - 1];
    }
  }
}
