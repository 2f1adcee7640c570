/**
  Which packets are tracked, from their bytes, and the state of a connection
  over whole histories, in the numbers that the kernel exports: 2 for a SYN,
  3 for established, 5 after a FIN and 8 after a RST.
 */
module TrackerStates {
  import opened Conntrack
  import opened Netlink
  import opened CtMessage
  import opened Tracker
  import opened TrackerRuns

  // ---------------------------------------------------------------- which packets are tracked

  /** Tracking is on, and the zone filter, if it is on too, has the zone within its range. */
  predicate InRange(cfg: Config, zone: U16) {
    cfg.flags % 2 == 1 && (cfg.flags / 2 % 2 == 1 ==> cfg.zoneMin <= zone <= cfg.zoneMax)
  }

  /** The network header is there, is of a first fragment and of TCP, and ends within the packet. */
  predicate CarriesTcp(b: seq<Byte>, n: nat) {
    && n + 20 <= |b| && (b[n + 6] as int * 256 + b[n + 7]) % 0x2000 == 0 && b[n + 9] == 6
    && 0 < n + b[n] % 16 * 4 <= |b|
  }

  /** The TCP header is there, and its length field is at least five words and within the packet. */
  predicate WholeTcp(b: seq<Byte>, off: nat) {
    off + 20 <= |b| && b[off + 12] / 16 >= 5 && off + b[off + 12] / 16 * 4 <= |b|
  }

  /** The checks let through exactly the whole TCP headers of zones in range; a packet stopped failed a check. */
  lemma PassesIff(cfg: Config, zone: U16, p: Packet)
    ensures var b, off := p.bytes, p.nhoff + (if p.nhoff < |p.bytes| then p.bytes[p.nhoff] % 16 * 4 else 0);
            && (Checks(cfg, zone, p).Pass? <==> InRange(cfg, zone) && CarriesTcp(b, p.nhoff) && WholeTcp(b, off))
            && (Checks(cfg, zone, p) in {Stop(-1), Stop(-2)} <==> !InRange(cfg, zone))
            && (Checks(cfg, zone, p) == Stop(-1) <==> cfg.flags % 2 == 0)
            && (Checks(cfg, zone, p) in {Stop(-3), Stop(-4), Stop(-5)} <==>
                InRange(cfg, zone) && !CarriesTcp(b, p.nhoff))
            && (Checks(cfg, zone, p) in {Stop(-6), Stop(-7)} <==>
                InRange(cfg, zone) && CarriesTcp(b, p.nhoff) && !WholeTcp(b, off))
  {
    hide SegmentAt;
    assert InRange(cfg, zone) <==> HasBit(cfg.flags, FLAGS_TCP_TRACK) && ZoneTracked(cfg, zone);
    hide InRange, ZoneTracked;
    if p.nhoff + 20 <= |p.bytes| {
      var h := p.bytes[p.nhoff + 6..];
      assert h[0] == p.bytes[p.nhoff + 6] && h[1] == p.bytes[p.nhoff + 7];
    }
  }

  /** What is read from a packet that passes, byte by byte. */
  lemma PassReads(cfg: Config, zone: U16, p: Packet)
    requires Checks(cfg, zone, p).Pass?
    ensures var b, s := p.bytes, Checks(cfg, zone, p).seg;
            && p.nhoff < |b| && var off := p.nhoff + b[p.nhoff] % 16 * 4;
            && off + 20 <= |b|
            && s.seqno == GetBe32(b[off + 4..]) && s.ackno == GetBe32(b[off + 8..])
            && (s.fin <==> b[off + 13] % 2 == 1) && (s.syn <==> b[off + 13] / 2 % 2 == 1)
            && (s.rst <==> b[off + 13] / 4 % 2 == 1) && (s.ack <==> b[off + 13] / 16 % 2 == 1)
            && s.payload == |b| - off - b[off + 12] / 16 * 4
  {
    hide ZoneTracked, GetBe32, GetBe16;
  }

  /** An arrival is tracked exactly if the call succeeded, outside recirculation, and the checks pass. */
  lemma TrackedIff(a: Arrival)
    ensures Tracked(a).Some? <==> a.retval == 0 && a.recircId == 0 && Checks(a.cfg, a.zone, a.p).Pass?
    ensures Tracked(a).Some? ==> Tracked(a).value == Checks(a.cfg, a.zone, a.p).seg
  {
    hide Checks;
  }

  /** The key of an established packet gets bit 1, loses bit 4 and keeps the others; any other key stays. */
  lemma KeyKeeps(n: Byte, ctinfo: Byte)
    ensures AdjustKey(n, ctinfo) == if ctinfo == 0 then n / 32 * 32 + n % 16 / 4 * 4 + 2 + n % 2 else n
  {
    hide ClearInvalid, SetEstablished;
    Cleared(n);
    Marked(ClearInvalid(n));
    BitsBelow(n / 32, n % 16);
    LowBit(n);
  }

  lemma LowBit(n: Byte)
    ensures n % 16 % 2 == n % 2
  {
  }

  lemma Cleared(n: Byte)
    ensures ClearInvalid(n) == n / 32 * 32 + n % 16
  {
    assert n == 32 * (n / 32) + 16 * (n / 16 % 2) + n % 16;
  }

  lemma Marked(m: Byte)
    ensures SetEstablished(m) == m / 4 * 4 + 2 + m % 2
  {
    assert m == 4 * (m / 4) + 2 * (m / 2 % 2) + m % 2;
  }

  lemma Div4(q: nat, r: nat)
    requires r < 4
    ensures (4 * q + r) / 4 == q
  {
  }

  lemma Mod2(q: nat, r: nat)
    requires r < 2
    ensures (2 * q + r) % 2 == r
  {
  }

  lemma BitsBelow(hi: nat, lo: nat)
    ensures var m := hi * 32 + lo; m / 4 * 4 + m % 2 == hi * 32 + lo / 4 * 4 + lo % 2
  {
    var q, r, h, b := lo / 4, lo % 4, lo / 2, lo % 2;
    assert lo == 4 * q + r && lo == 2 * h + b;
    Div4(8 * hi + q, r);
    Mod2(16 * hi + h, b);
    assert 4 * (8 * hi + q) + r == hi * 32 + lo && 2 * (16 * hi + h) + b == hi * 32 + lo;
  }

  // ---------------------------------------------------------------- how a connection closes

  /** A tracked FIN or RST. */
  predicate Closes(a: Arrival) {
    Tracked(a).Some? && (Tracked(a).value.fin || Tracked(a).value.rst)
  }

  predicate NoneCloses(history: seq<Arrival>) {
    forall i :: 0 <= i < |history| ==> !Closes(history[i])
  }

  /** Position `k` holds the last tracked FIN or RST. */
  predicate LastClose(history: seq<Arrival>, k: nat) {
    k < |history| && Closes(history[k]) && forall j :: k < j < |history| ==> !Closes(history[j])
  }

  /** SYN packets come only while the connection is established: none after a FIN or RST. */
  predicate NoSynAfter(state: Byte, history: seq<Arrival>) {
    forall j :: 0 <= j < |history| && Syn(history[j]) ==> state == 3 && NoneCloses(history[..j])
  }

  function ClosedState(a: Arrival): Byte
    requires Closes(a)
  {
    if Tracked(a).value.fin then 5 else 8
  }

  lemma CloseStep(history: seq<Arrival>)
    requires history != []
    ensures var n := |history| - 1;
            && (NoneCloses(history) <==> NoneCloses(history[..n]) && !Closes(history[n]))
            && (Closes(history[n]) ==> LastClose(history, n))
            && (!Closes(history[n]) ==> forall k: nat :: LastClose(history, k) <==> LastClose(history[..n], k))
  {
    hide Closes;
    var n := |history| - 1;
    var earlier := history[..n];
    if NoneCloses(history) {
      assert !Closes(history[n]);
      forall i | 0 <= i < n
        ensures !Closes(earlier[i])
      {
        assert !Closes(history[i]);
      }
    }
    if NoneCloses(earlier) && !Closes(history[n]) {
      forall i | 0 <= i <= n
        ensures !Closes(history[i])
      {
        assert i < n ==> !Closes(earlier[i]);
      }
    }
    if !Closes(history[n]) {
      forall k: nat
        ensures LastClose(history, k) <==> LastClose(earlier, k)
      {
        LastCloseEarlier(history, k);
      }
    }
  }

  lemma LastCloseEarlier(history: seq<Arrival>, k: nat)
    requires history != [] && !Closes(history[|history| - 1])
    ensures LastClose(history, k) <==> LastClose(history[..|history| - 1], k)
  {
    hide Closes;
    var n := |history| - 1;
    var earlier := history[..n];
    if LastClose(history, k) {
      assert k != n;
      forall j | k < j < n
        ensures !Closes(earlier[j])
      {
        assert !Closes(history[j]);
      }
    }
    if LastClose(earlier, k) {
      forall j | k < j <= n
        ensures !Closes(history[j])
      {
        assert j < n ==> !Closes(earlier[j]);
      }
    }
  }

  lemma NoSynStep(state: Byte, history: seq<Arrival>)
    requires history != [] && NoSynAfter(state, history)
    ensures var n := |history| - 1;
            && NoSynAfter(state, history[..n])
            && (Syn(history[n]) ==> state == 3 && NoneCloses(history[..n]))
  {
    hide Syn, NoneCloses;
    var n := |history| - 1;
    var earlier := history[..n];
    forall j | 0 <= j < n && Syn(earlier[j])
      ensures state == 3 && NoneCloses(earlier[..j])
    {
      assert earlier[..j] == history[..j];
    }
  }

  /** Once established, the last tracked FIN or RST decides the state; acknowledgements do not matter. */
  lemma {:induction false} ClosedByLast(t: TcpState, history: seq<Arrival>)
    requires t.state >= 3 && NoSynAfter(t.state, history)
    ensures NoneCloses(history) ==> Run(t, history).state == t.state
    ensures !NoneCloses(history) ==>
              exists k: nat :: LastClose(history, k) && Run(t, history).state == ClosedState(history[k])
    decreases |history|
  {
    if history != [] {
      var n := |history| - 1;
      var a := history[n];
      NoSynStep(t.state, history);
      CloseStep(history);
      ClosedByLast(t, history[..n]);
      ClosedStep(Run(t, history[..n]), a);
      hide NoneCloses, NoSynAfter, LastClose, Closes, Syn, Step;
      if Closes(a) {
        assert LastClose(history, n);
      } else if !NoneCloses(history[..n]) {
        var k: nat :| LastClose(history[..n], k) && Run(t, history[..n]).state == ClosedState(history[..n][k]);
        assert LastClose(history, k);
      }
    }
  }

  lemma ClosedStep(t: TcpState, a: Arrival)
    requires t.state >= 3 && (Syn(a) ==> t.state == 3)
    ensures Step(t, a).state == if Closes(a) then ClosedState(a) else t.state
  {
    hide Tracked, Repeats, SegEnd;
  }

  lemma LastCloseUnique(history: seq<Arrival>, j: nat, k: nat)
    requires LastClose(history, j) && LastClose(history, k)
    ensures j == k
  {
    hide Closes;
  }

  /**
    From established, with no SYN after a FIN or RST: the state is 3 exactly if there was none, 5 exactly if the last of
    them had FIN, 8 exactly if it had RST and not FIN.
   */
  lemma EstablishedCloses(t: TcpState, history: seq<Arrival>)
    requires t.state == 3 && NoSynAfter(3, history)
    ensures var s := Run(t, history).state;
            && (s == 3 <==> forall i :: 0 <= i < |history| ==> !Closes(history[i]))
            && (s == 5 <==> exists k: nat :: LastClose(history, k) && Tracked(history[k]).value.fin)
            && (s == 8 <==> exists k: nat :: LastClose(history, k) && !Tracked(history[k]).value.fin)
  {
    ClosedByLast(t, history);
    hide Tracked, Run, NoSynAfter;
    if NoneCloses(history) {
      assert forall k: nat :: !LastClose(history, k);
    } else {
      var k: nat :| LastClose(history, k) && Run(t, history).state == ClosedState(history[k]);
      forall j: nat | LastClose(history, j)
        ensures j == k
      {
        LastCloseUnique(history, j, k);
      }
    }
  }

  // ---------------------------------------------------------------- how it opens

  lemma {:induction false} RunSplits(t: TcpState, a: seq<Arrival>, b: seq<Arrival>)
    ensures Run(t, a + b) == Run(Run(t, a), b)
    decreases |b|
  {
    if b == [] {
      assert a + b == a;
    } else {
      var n := |b| - 1;
      RunSplits(t, a, b[..n]);
      assert (a + b)[..|a + b| - 1] == a + b[..n];
      hide Step;
    }
  }

  /** A tracked packet with any of the four flags. */
  predicate Speaks(a: Arrival) {
    Tracked(a).Some? && (Tracked(a).value.syn || Tracked(a).value.ack || Closes(a))
  }

  lemma {:induction false} SilenceKeeps(t: TcpState, history: seq<Arrival>)
    requires forall i :: 0 <= i < |history| ==> !Speaks(history[i])
    ensures Run(t, history).state == t.state
    decreases |history|
  {
    if history != [] {
      var n := |history| - 1;
      SilenceKeeps(t, history[..n]);
      assert !Speaks(history[n]);
    }
  }

  /**
    Before established, the first packet with a flag decides: SYN leads to 2 whatever else it has; without SYN, ACK
    leads to 3 even with FIN or RST; without both, FIN leads to 5 and RST alone to 8. What comes after goes on from
    there.
   */
  lemma OpenedByFirst(t: TcpState, history: seq<Arrival>, i: nat)
    requires t.state < 3 && i < |history| && Speaks(history[i])
    requires forall j :: 0 <= j < i ==> !Speaks(history[j])
    ensures var s := Tracked(history[i]).value;
            && Run(t, history[..i]).state == t.state
            && Run(t, history[..i + 1]).state == (if s.syn then 2 else if s.ack then 3 else if s.fin then 5 else 8)
            && Run(t, history) == Run(Run(t, history[..i + 1]), history[i + 1..])
  {
    hide Speaks;
    forall j | 0 <= j < i
      ensures !Speaks(history[..i][j])
    {
      assert !Speaks(history[j]);
    }
    SilenceKeeps(t, history[..i]);
    assert history == history[..i + 1] + history[i + 1..];
    RunSplits(t, history[..i + 1], history[i + 1..]);
    assert history[..i + 1][..i] == history[..i];
    SpeakStep(Run(t, history[..i]), history[i]);
    hide Step;
  }

  lemma SpeakStep(t: TcpState, a: Arrival)
    requires t.state < 3 && Speaks(a)
    ensures var s := Tracked(a).value;
            Step(t, a).state == if s.syn then 2 else if s.ack then 3 else if s.fin then 5 else 8
  {
    hide Tracked, Repeats, SegEnd;
  }

  /**
    Without FIN and RST, the state in numbers: before established it is 3 once some packet had ACK without SYN, else 2
    once there was a SYN; past established, 3 once such a packet came after a SYN, else 2 once there was a SYN.
   */
  lemma {:induction false} OpenState(t: TcpState, history: seq<Arrival>)
    requires NoneCloses(history) && t.state != 3
    ensures Run(t, history).state ==
            if (if t.state < 3 then Opened(history) else Reopened(history)) then 3
            else if SynSeen(history) then 2 else t.state
    decreases |history|
  {
    if history != [] {
      var n := |history| - 1;
      CloseStep(history);
      OpenState(t, history[..n]);
      OpenedStep(history);
      SynSeenStep(history);
      ReopenedStep(history);
      OpenStep(Run(t, history[..n]), history[n]);
      hide Opened, Reopened, SynSeen, Closes, NoneCloses, Step, LastClose, Syn, AckOnly;
    }
  }

  lemma OpenStep(t: TcpState, a: Arrival)
    requires !Closes(a)
    ensures Step(t, a).state ==
            if Syn(a) && t.state != 3 then 2 else if AckOnly(a) && t.state < 3 then 3 else t.state
  {
    hide Tracked, Repeats, SegEnd;
  }
}
