/**
  The buffer of a dump: the messages of one call fit into it, and the call
  stops before its end only at a message that does not.
 */
module DumpBytes {
  import opened Conntrack
  import opened TableDump

  /** The bytes of the messages about these entries. */
  function Bytes(q: Query, es: Entries, sent: seq<ConnId>): nat {
    if sent == [] then 0 else Bytes(q, es, sent[..|sent| - 1]) + q.len(es(sent[|sent| - 1]).conn)
  }

  /** The entry `c` is live, of the namespace, let through by the filter, and its message exceeds what is left. */
  predicate TooLong(q: Query, es: Entries, room: nat, c: ConnId) {
    !es(c).expired && es(c).net == q.net && q.matches(es(c).conn.info) && q.len(es(c).conn) > room
  }

  lemma NodeFills(q: Query, w: World, s: Scan, last: Option<ConnId>, n: Node)
    requires !s.full
    ensures var r := ScanNode(q, w, s, last, n);
            && s.sent <= r.sent
            && Bytes(q, w.entries, r.sent) + r.room == Bytes(q, w.entries, s.sent) + s.room
            && (r.full ==> TooLong(q, w.entries, r.room, n.ct) && r.cursor == Some(n.ct))
  {
    var r := ScanNode(q, w, s, last, n);
    if r.sent != s.sent {
      assert r.sent[..|r.sent| - 1] == s.sent;
    }
    hide Remember;
  }

  lemma {:induction false} ScanFills(q: Query, w: World, s: Scan, last: Option<ConnId>, chain: seq<Node>)
    requires !s.full
    ensures var r := ScanChain(q, w, s, last, chain);
            && s.sent <= r.sent
            && Bytes(q, w.entries, r.sent) + r.room == Bytes(q, w.entries, s.sent) + s.room
            && (r.full ==> exists c: ConnId :: TooLong(q, w.entries, r.room, c))
    decreases |chain|
  {
    if chain != [] {
      NodeFills(q, w, s, last, chain[0]);
      hide ScanNode, Bytes, TooLong;
      var s' := ScanNode(q, w, s, last, chain[0]);
      if !s'.full {
        ScanFills(q, w, s', last, chain[1..]);
      }
    }
  }

  /** What a call keeps: the entries, the messages sent, and the bytes sent and left together. */
  ghost predicate Fills(q: Query, s: Sys, t: Sys) {
    && t.w.entries == s.w.entries && s.d.sent <= t.d.sent
    && Bytes(q, s.w.entries, t.d.sent) + t.d.room == Bytes(q, s.w.entries, s.d.sent) + s.d.room
    && (t.d.full ==> (s.d.full && t.d.room == s.d.room) || exists c: ConnId :: TooLong(q, t.w.entries, t.d.room, c))
  }

  lemma VisitFills(q: Query, s: Sys)
    requires s.d.bucket < |s.w.buckets|
    ensures Fills(q, s, Visit(q, s))
  {
    hide ScanChain, Bytes, TooLong;
    ScanFills(q, s.w, StartScan(s.d), s.d.last, s.w.buckets[s.d.bucket]);
  }

  lemma ReapKeepsBytes(s: Sys)
    requires s.d.evict != []
    ensures var t := ReapOne(s);
            t.w.entries == s.w.entries && t.d.sent == s.d.sent && t.d.room == s.d.room && t.d.full == s.d.full
  {
    hide Without, InTable;
  }

  lemma AdvanceFills(q: Query, s: Sys)
    requires s.d.phase.Walking? || s.d.phase.Closing? || s.d.phase.Draining?
    ensures Fills(q, s, Advance(q, s))
  {
    hide Visit, ReapOne, Bytes, TooLong;
    if s.d.evict != [] {
      ReapKeepsBytes(s);
    } else if s.d.phase.Walking? && s.d.bucket < |s.w.buckets| {
      VisitFills(q, s);
    }
  }

  lemma FillsTrans(q: Query, s: Sys, t: Sys, u: Sys)
    requires Fills(q, s, t) && Fills(q, t, u)
    ensures Fills(q, s, u)
  {
    hide Bytes, TooLong;
  }

  lemma {:induction false} RunFills(q: Query, s: Sys)
    ensures Fills(q, s, RunCall(q, s))
    decreases PhaseRank(s.d.phase), BucketsLeft(s), if s.d.cursor.Some? then 1 else 0, |s.d.evict|
  {
    if s.d.phase.Walking? || s.d.phase.Closing? || s.d.phase.Draining? {
      AdvanceFills(q, s);
      AdvanceDecreases(q, s);
      hide Advance, Fills;
      RunFills(q, Advance(q, s));
      FillsTrans(q, s, Advance(q, s), RunCall(q, s));
    } else {
      hide Bytes, TooLong;
    }
  }

  lemma {:induction false} BytesConcat(q: Query, es: Entries, a: seq<ConnId>, b: seq<ConnId>)
    ensures Bytes(q, es, a + b) == Bytes(q, es, a) + Bytes(q, es, b)
    decreases |b|
  {
    if b == [] {
      assert a + b == a;
    } else {
      BytesConcat(q, es, a, b[..|b| - 1]);
      assert (a + b)[..|a + b| - 1] == a + b[..|b| - 1];
    }
  }

  /**
    The messages a call sends fit its buffer; and it stops before the end of the table only at an entry that is to be
    sent and does not fit after them.
   */
  lemma CallFits(q: Query, s: Sys, cap: nat)
    ensures var t := Call(q, s, cap);
            && s.d.sent <= t.d.sent
            && var bytes := Bytes(q, s.w.entries, t.d.sent[|s.d.sent|..]);
            && bytes <= cap
            && (t.d.full ==>
                  exists c: ConnId ::
                    && !s.w.entries(c).expired && s.w.entries(c).net == q.net
                    && q.matches(s.w.entries(c).conn.info) && bytes + q.len(s.w.entries(c).conn) > cap)
  {
    var t := Call(q, s, cap);
    RunFills(q, Begin(s, cap));
    hide RunCall, Bytes;
    assert t.d.sent == s.d.sent + t.d.sent[|s.d.sent|..];
    BytesConcat(q, s.w.entries, s.d.sent, t.d.sent[|s.d.sent|..]);
  }
}
