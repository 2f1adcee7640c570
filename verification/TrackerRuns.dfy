/**
  Whole histories of a connection: what the tracked fields say about all the
  packets seen so far, and how the state moves.
 */
module TrackerRuns {
  import opened Conntrack
  import opened CtMessage
  import opened Tracker

  function Run(t: TcpState, history: seq<Arrival>): TcpState
    decreases |history|
  {
    if history == [] then t else Step(Run(t, history[..|history| - 1]), history[|history| - 1])
  }

  // ---------------------------------------------------------------- the numbers

  /** The sequence number of the latest tracked packet. */
  function LatestSeq(init: U32, history: seq<Arrival>): U32
    decreases |history|
  {
    if history == [] then init
    else match Tracked(history[|history| - 1])
      case Some(s) => s.seqno
      case None => LatestSeq(init, history[..|history| - 1])
  }

  /** The latest nonzero acknowledgement number of a tracked packet. */
  function LatestAck(init: U32, history: seq<Arrival>): U32
    decreases |history|
  {
    if history == [] then init
    else
      var earlier := history[..|history| - 1];
      match Tracked(history[|history| - 1])
      case Some(s) => if s.ackno != 0 then s.ackno else LatestAck(init, earlier)
      case None => LatestAck(init, earlier)
  }

  /**
    Although repeats are skipped and zero acknowledgements are not stored, the two numbers are those of the history.
   */
  lemma {:induction false} RunRefinesHistory(t: TcpState, history: seq<Arrival>)
    ensures Run(t, history).lastSeq == LatestSeq(t.lastSeq, history)
    ensures Run(t, history).lastAck == LatestAck(t.lastAck, history)
    decreases |history|
  {
    if history != [] {
      RunRefinesHistory(t, history[..|history| - 1]);
    }
  }

  /**
    What the functions above pick, by position: the last tracked packet, and the last tracked one with an
    acknowledgement.
   */
  lemma {:induction false} LatestIsLast(init: U32, history: seq<Arrival>, i: nat)
    requires i < |history| && Tracked(history[i]).Some?
    requires forall j :: i < j < |history| ==> Tracked(history[j]).None?
    ensures LatestSeq(init, history) == Tracked(history[i]).value.seqno
    decreases |history|
  {
    if i < |history| - 1 {
      LatestIsLast(init, history[..|history| - 1], i);
    }
  }

  predicate Acknowledges(a: Arrival) {
    Tracked(a).Some? && Tracked(a).value.ackno != 0
  }

  lemma {:induction false} LatestAckIsLast(init: U32, history: seq<Arrival>, i: nat)
    requires i < |history| && Acknowledges(history[i])
    requires forall j :: i < j < |history| ==> !Acknowledges(history[j])
    ensures LatestAck(init, history) == Tracked(history[i]).value.ackno
    decreases |history|
  {
    if i < |history| - 1 {
      LatestAckIsLast(init, history[..|history| - 1], i);
    }
  }

  // ---------------------------------------------------------------- the end of the last segment

  /**
    Packet `i` of a history is stored: it is tracked, and does not repeat both the sequence number of the
    packet tracked before it and the acknowledgement number then in force.
   */
  predicate Stored(t: TcpState, history: seq<Arrival>, i: nat)
    requires i < |history|
  {
    match Tracked(history[i])
    case None => false
    case Some(s) => s.seqno != LatestSeq(t.lastSeq, history[..i]) || s.ackno != LatestAck(t.lastAck, history[..i])
  }

  /** Whether a packet is stored does not depend on later ones. */
  lemma StoredEarlier(t: TcpState, history: seq<Arrival>, i: nat)
    requires i < |history| - 1
    ensures Stored(t, history[..|history| - 1], i) <==> Stored(t, history, i)
  {
    assert history[..|history| - 1][..i] == history[..i];
    hide Tracked, LatestSeq, LatestAck;
  }

  /**
    A packet that is stored sets the end; one that is not leaves it, and has the stored sequence number if it is
    tracked.
   */
  lemma EndStep(t: TcpState, history: seq<Arrival>)
    requires history != []
    ensures var n := |history| - 1;
            var before, after := Run(t, history[..n]), Run(t, history);
            if Stored(t, history, n) then
              var s := Tracked(history[n]).value;
              after.lastSeq == s.seqno && after.lastEnd == SegEnd(s)
            else after.lastSeq == before.lastSeq && after.lastEnd == before.lastEnd && after.lastAck == before.lastAck
  {
    RunRefinesHistory(t, history[..|history| - 1]);
    hide Tracked, SegEnd, LatestSeq, LatestAck, NextState;
  }

  /** Position `i` holds the last stored packet. */
  predicate LastStored(t: TcpState, history: seq<Arrival>, i: nat) {
    i < |history| && Stored(t, history, i) && forall j :: i < j < |history| ==> !Stored(t, history, j)
  }

  lemma LastStoredEarlier(t: TcpState, history: seq<Arrival>, i: nat)
    requires LastStored(t, history, i) && i < |history| - 1
    ensures LastStored(t, history[..|history| - 1], i) && !Stored(t, history, |history| - 1)
  {
    hide Stored;
    var earlier := history[..|history| - 1];
    StoredEarlier(t, history, i);
    forall j | i < j < |earlier|
      ensures !Stored(t, earlier, j)
    {
      assert !Stored(t, history, j);
      StoredEarlier(t, history, j);
    }
    assert !Stored(t, history, |history| - 1);
  }

  lemma {:induction false} LastStoredCounts(t: TcpState, history: seq<Arrival>, i: nat)
    requires LastStored(t, history, i)
    ensures Tracked(history[i]).Some?
    ensures var s, r := Tracked(history[i]).value, Run(t, history); r.lastSeq == s.seqno && r.lastEnd == SegEnd(s)
    decreases |history|
  {
    EndStep(t, history);
    assert Tracked(history[i]).Some?;
    hide Stored, Run, SegEnd, Tracked;
    if i < |history| - 1 {
      LastStoredEarlier(t, history, i);
      LastStoredCounts(t, history[..|history| - 1], i);
    }
  }

  /**
    The end is always a real one: it is the end of the last stored packet, whose sequence number is the one
    stored with it; the packet's length is the difference of the two, modulo 2^32.
   */
  lemma EndIsOfLastStored(t: TcpState, history: seq<Arrival>, i: nat)
    requires LastStored(t, history, i) && |history[i].p.bytes| < 0x1_0000_0000
    ensures var s, r := Tracked(history[i]).value, Run(t, history);
            && r.lastSeq == s.seqno
            && r.lastEnd == (s.seqno + s.payload + (if s.syn then 1 else 0) + (if s.fin then 1 else 0)) % 0x1_0000_0000
            && (r.lastEnd - r.lastSeq) % 0x1_0000_0000 == s.payload + (if s.syn then 1 else 0) + if s.fin then 1 else 0
  {
    LastStoredCounts(t, history, i);
    TrackedLength(history[i]);
    hide Tracked, Run, Stored;
    IsEndIff(Tracked(history[i]).value, Run(t, history).lastEnd);
  }

  /** As long as nothing was stored, the three numbers are the first ones. */
  lemma {:induction false} NothingStored(t: TcpState, history: seq<Arrival>)
    requires forall j :: 0 <= j < |history| ==> !Stored(t, history, j)
    ensures var r := Run(t, history); r.lastEnd == t.lastEnd && r.lastSeq == t.lastSeq && r.lastAck == t.lastAck
    decreases |history|
  {
    if history != [] {
      var n := |history| - 1;
      EndStep(t, history);
      forall j | 0 <= j < n
        ensures !Stored(t, history[..n], j)
      {
        StoredEarlier(t, history, j);
        assert !Stored(t, history, j);
      }
      hide Stored, Run;
      NothingStored(t, history[..n]);
      assert !Stored(t, history, n);
    }
  }

  /** Two segments at one sequence number end at the same place exactly if they have the same length. */
  lemma SameEndIff(a: Segment, b: Segment)
    requires a.seqno == b.seqno && SegLen(a) < 0x1_0000_0000 && SegLen(b) < 0x1_0000_0000
    ensures SegEnd(a) == SegEnd(b) <==> SegLen(a) == SegLen(b)
  {
    ModularLength(a.seqno, SegLen(a));
    ModularLength(b.seqno, SegLen(b));
  }

  /** Position `k` holds the latest tracked packet. */
  predicate LatestTracked(history: seq<Arrival>, k: nat) {
    k < |history| && Tracked(history[k]).Some? && forall j :: k < j < |history| ==> Tracked(history[j]).None?
  }

  /**
    Whether the end is that of the latest tracked packet can be told from two packets: it is exactly if the last
    stored packet, which has the same sequence number, occupies as much of the sequence space.
   */
  lemma EndIsLatestIff(t: TcpState, history: seq<Arrival>, latest: nat, i: nat)
    requires LatestTracked(history, latest) && LastStored(t, history, i)
    requires |history[latest].p.bytes| < 0x1_0000_0000 && |history[i].p.bytes| < 0x1_0000_0000
    ensures var s, stored := Tracked(history[latest]).value, Tracked(history[i]).value;
            && stored.seqno == s.seqno
            && (Run(t, history).lastEnd == SegEnd(s) <==> SegLen(stored) == SegLen(s))
  {
    LastStoredCounts(t, history, i);
    RunRefinesHistory(t, history);
    LatestIsLast(t.lastSeq, history, latest);
    TrackedLength(history[latest]);
    TrackedLength(history[i]);
    hide Tracked, Run, SegEnd, SegLen, Stored, LatestSeq, LatestAck;
    SameEndIff(Tracked(history[i]).value, Tracked(history[latest]).value);
  }

  lemma EndFromLength(from: U32, end: U32, len: nat)
    requires (end - from) % 0x1_0000_0000 == len
    ensures (from + len) % 0x1_0000_0000 == end
  {
  }

  /** A number is the end of a segment exactly if its distance from the sequence number is the segment's length. */
  lemma IsEndIff(s: Segment, end: U32)
    requires SegLen(s) < 0x1_0000_0000
    ensures end == SegEnd(s) <==> Distance(s.seqno, end) == SegLen(s)
  {
    if end == SegEnd(s) {
      ModularLength(s.seqno, SegLen(s));
    }
    if Distance(s.seqno, end) == SegLen(s) {
      EndFromLength(s.seqno, end, SegLen(s));
    }
  }

  function Distance(from: U32, to: U32): nat {
    (to - from) % 0x1_0000_0000
  }

  /**
    If nothing was stored, every tracked packet repeats the first numbers, and the end is that of the latest one
    exactly if the first end is as far from the first sequence number as that packet is long.
   */
  lemma FirstEndIsLatestIff(t: TcpState, history: seq<Arrival>, latest: nat)
    requires LatestTracked(history, latest) && forall j :: 0 <= j < |history| ==> !Stored(t, history, j)
    requires |history[latest].p.bytes| < 0x1_0000_0000
    ensures var s := Tracked(history[latest]).value;
            && s.seqno == t.lastSeq
            && (Run(t, history).lastEnd == SegEnd(s) <==> Distance(t.lastSeq, t.lastEnd) == SegLen(s))
  {
    NothingStored(t, history);
    RunRefinesHistory(t, history);
    LatestIsLast(t.lastSeq, history, latest);
    TrackedLength(history[latest]);
    hide Tracked, Run, SegLen, SegEnd, Stored, LatestSeq, LatestAck, Distance;
    IsEndIff(Tracked(history[latest]).value, t.lastEnd);
  }

  /**
    The condition fails in ordinary traffic: a bare acknowledgement followed by data leaves the end where the
    acknowledgement put it, since the data repeat its two numbers.
   */
  lemma DataAfterAckIsSkipped(t: TcpState, ack: Segment, data: Segment)
    requires ack == Segment(ack.seqno, ack.ackno, false, true, false, false, 0) && ack.ackno != 0
    requires data == ack.(payload := data.payload) && 0 < data.payload < 0x1_0000_0000
    requires !Repeats(t, ack)
    ensures var r := Absorb(Absorb(t, ack), data);
            r.lastSeq == data.seqno && r.lastAck == data.ackno && r.lastEnd == ack.seqno && r.lastEnd != SegEnd(data)
  {
    ModularLength(data.seqno, data.payload);
  }

  // ---------------------------------------------------------------- the state

  predicate Syn(a: Arrival) {
    Tracked(a).Some? && Tracked(a).value.syn
  }

  predicate AckOnly(a: Arrival) {
    Tracked(a).Some? && Tracked(a).value.ack && !Tracked(a).value.syn
  }

  /** Not a tracked FIN or RST. */
  predicate Open(a: Arrival) {
    Tracked(a).Some? ==> !Tracked(a).value.fin && !Tracked(a).value.rst
  }

  predicate Opened(history: seq<Arrival>) {
    exists i :: 0 <= i < |history| && AckOnly(history[i])
  }

  /** A SYN and, later, an acknowledgement that is not a SYN. */
  predicate Reopened(history: seq<Arrival>) {
    exists i, j :: 0 <= i < j < |history| && Syn(history[i]) && AckOnly(history[j])
  }

  lemma OpenedStep(history: seq<Arrival>)
    requires history != []
    ensures Opened(history) <==> Opened(history[..|history| - 1]) || AckOnly(history[|history| - 1])
  {
    hide Syn, AckOnly;
    var earlier := history[..|history| - 1];
    if Opened(history) {
      var i :| 0 <= i < |history| && AckOnly(history[i]);
      assert i < |earlier| ==> AckOnly(earlier[i]);
    }
    if Opened(earlier) {
      var i :| 0 <= i < |earlier| && AckOnly(earlier[i]);
      assert AckOnly(history[i]);
    }
  }

  predicate SynSeen(history: seq<Arrival>) {
    exists i :: 0 <= i < |history| && Syn(history[i])
  }

  lemma SynSeenStep(history: seq<Arrival>)
    requires history != []
    ensures SynSeen(history) <==> SynSeen(history[..|history| - 1]) || Syn(history[|history| - 1])
  {
    hide Syn, AckOnly;
    var earlier := history[..|history| - 1];
    if SynSeen(history) {
      var i :| 0 <= i < |history| && Syn(history[i]);
      assert i < |earlier| ==> Syn(earlier[i]);
    }
    if SynSeen(earlier) {
      var i :| 0 <= i < |earlier| && Syn(earlier[i]);
      assert Syn(history[i]);
    }
  }

  lemma ReopenedStep(history: seq<Arrival>)
    requires history != []
    ensures Reopened(history) <==>
            Reopened(history[..|history| - 1]) || (SynSeen(history[..|history| - 1]) && AckOnly(history[|history| - 1]))
  {
    hide Syn, AckOnly;
    var n := |history| - 1;
    var earlier := history[..n];
    if Reopened(history) {
      var i, j :| 0 <= i < j < |history| && Syn(history[i]) && AckOnly(history[j]);
      assert Syn(earlier[i]);
      assert j < n ==> AckOnly(earlier[j]);
    }
    if Reopened(earlier) {
      var i, j :| 0 <= i < j < |earlier| && Syn(earlier[i]) && AckOnly(earlier[j]);
      assert Syn(history[i]) && AckOnly(history[j]);
    }
    if SynSeen(earlier) && AckOnly(history[n]) {
      var i :| 0 <= i < |earlier| && Syn(earlier[i]);
      assert Syn(history[i]);
    }
  }

  /**
    Without FIN and RST, a connection not yet established becomes so exactly when some packet acknowledges and is no
    SYN.
   */
  lemma {:induction false} EstablishedIffOpened(t: TcpState, history: seq<Arrival>)
    requires t.state < TCP_CONNTRACK_ESTABLISHED && forall i :: 0 <= i < |history| ==> Open(history[i])
    ensures Run(t, history).state <= TCP_CONNTRACK_ESTABLISHED
    ensures Run(t, history).state == TCP_CONNTRACK_ESTABLISHED <==> Opened(history)
    decreases |history|
  {
    if history != [] {
      assert Open(history[|history| - 1]);
      EstablishedIffOpened(t, history[..|history| - 1]);
      OpenedStep(history);
    }
  }

  /** A connection past established is so again only after a SYN and a later acknowledgement, whatever else happens. */
  lemma {:induction false} EstablishedAgainOnly(t: TcpState, history: seq<Arrival>)
    requires t.state > TCP_CONNTRACK_ESTABLISHED
    ensures Run(t, history).state == TCP_CONNTRACK_ESTABLISHED ==> Reopened(history)
    ensures Run(t, history).state <= TCP_CONNTRACK_ESTABLISHED ==> SynSeen(history)
    decreases |history|
  {
    if history != [] {
      EstablishedAgainOnly(t, history[..|history| - 1]);
      SynSeenStep(history);
      ReopenedStep(history);
    }
  }

  /** And without FIN and RST, exactly then. */
  lemma {:induction false} EstablishedAgainIff(t: TcpState, history: seq<Arrival>)
    requires t.state > TCP_CONNTRACK_ESTABLISHED && forall i :: 0 <= i < |history| ==> Open(history[i])
    ensures Run(t, history).state == TCP_CONNTRACK_ESTABLISHED <==> Reopened(history)
    ensures Run(t, history).state <= TCP_CONNTRACK_ESTABLISHED <==> SynSeen(history)
    decreases |history|
  {
    if history != [] {
      assert Open(history[|history| - 1]);
      EstablishedAgainIff(t, history[..|history| - 1]);
      SynSeenStep(history);
      ReopenedStep(history);
    }
  }
}
