/**
  The buffers of the dumps of expectations and of dying connections: the
  messages of one call fit, whatever the call sees of the lists, and all of
  them were asked for.
 */
module ListBytes {
  import opened Conntrack
  import opened ListWalk
  import ExpectDump
  import DyingDump

  /** The bytes of the messages about these entries. */
  function Bytes(x: Request, sent: seq<ConnId>): nat {
    if sent == [] then 0 else Bytes(x, sent[..|sent| - 1]) + x.len(sent[|sent| - 1])
  }

  lemma {:induction false} BytesConcat(x: Request, a: seq<ConnId>, b: seq<ConnId>)
    ensures Bytes(x, a + b) == Bytes(x, a) + Bytes(x, b)
    decreases |b|
  {
    if b == [] {
      assert a + b == a;
    } else {
      BytesConcat(x, a, b[..|b| - 1]);
      assert (a + b)[..|a + b| - 1] == a + b[..|b| - 1];
    }
  }

  /** From `sent` with `room` bytes left to `sent'` with `room'`: more was sent, all of it asked for, and it fits. */
  predicate Fills(x: Request, sent: seq<ConnId>, room: nat, sent': seq<ConnId>, room': nat) {
    && sent <= sent' && Bytes(x, sent') + room' == Bytes(x, sent) + room
    && forall i :: |sent| <= i < |sent'| ==> x.wanted(sent'[i])
  }

  lemma OneFills(x: Request, sent: seq<ConnId>, room: nat, e: ConnId)
    requires x.wanted(e) && x.len(e) <= room
    ensures Fills(x, sent, room, sent + [e], room - x.len(e))
  {
    assert (sent + [e])[..|sent|] == sent;
  }

  lemma FillsTrans(x: Request, a: seq<ConnId>, k: nat, b: seq<ConnId>, m: nat, c: seq<ConnId>, n: nat)
    requires Fills(x, a, k, b, m) && Fills(x, b, m, c, n)
    ensures Fills(x, a, k, c, n)
  {
    hide Bytes;
    forall i | |a| <= i < |c|
      ensures x.wanted(c[i])
    {
      if i < |b| {
        assert c[i] == b[i];
      }
    }
  }

  // ---------------------------------------------------------------- expectations

  lemma {:induction false} WalkFills(x: Request, live: ConnId -> bool, s: ExpectDump.Scan, last: Option<ConnId>,
                                     chain: seq<ConnId>)
    requires !s.full
    ensures var r := ExpectDump.Walk(x, live, s, last, chain);
            && Fills(x, s.sent, s.room, r.sent, r.room)
            && (r.full ==> exists e: ConnId :: x.wanted(e) && live(e) && x.len(e) > r.room)
    decreases |chain|
  {
    if chain != [] {
      var s' := ExpectDump.Look(x, live, s, last, chain[0]);
      if s'.sent != s.sent {
        OneFills(x, s.sent, s.room, chain[0]);
      }
      assert s'.full ==> x.wanted(chain[0]) && live(chain[0]) && x.len(chain[0]) > s'.room;
      assert Fills(x, s.sent, s.room, s'.sent, s'.room);
      hide ExpectDump.Look, Fills;
      if !s'.full {
        WalkFills(x, live, s', last, chain[1..]);
        var r := ExpectDump.Walk(x, live, s, last, chain);
        FillsTrans(x, s.sent, s.room, s'.sent, s'.room, r.sent, r.room);
      }
    } else {
      hide Bytes;
    }
  }

  lemma {:induction false} LoopFills(x: Request, hsize: nat, passes: ExpectDump.Passes, n: nat, bucket: nat,
                                     s: ExpectDump.Scan, last: Option<ConnId>)
    requires !s.full
    ensures var r := ExpectDump.Loop(x, hsize, passes, n, bucket, s, last).1; Fills(x, s.sent, s.room, r.sent, r.room)
    decreases hsize - bucket, if s.cursor.Some? then 1 else 0
  {
    if bucket < hsize {
      var p := passes(n, bucket);
      var r := ExpectDump.Walk(x, p.live, s, last, p.chain);
      WalkFills(x, p.live, s, last, p.chain);
      ExpectDump.LoopUnrolls(x, hsize, passes, n, bucket, s, last);
      ExpectDump.WalkRefs(x, p.live, s, last, p.chain);
      var t := ExpectDump.Loop(x, hsize, passes, n, bucket, s, last).1;
      hide ExpectDump.Walk, ExpectDump.Loop, Fills;
      if !r.full {
        if r.cursor.Some? {
          LoopFills(x, hsize, passes, n + 1, bucket, r.(cursor := None), last);
        } else {
          LoopFills(x, hsize, passes, n + 1, bucket + 1, r, last);
        }
        FillsTrans(x, s.sent, s.room, r.sent, r.room, t.sent, t.room);
      }
    } else {
      ExpectDump.LoopEnds(x, hsize, passes, n, bucket, s, last);
      hide ExpectDump.Loop, Bytes;
    }
  }

  /** The messages of a call of the expectation dump fit its buffer and were asked for. */
  lemma ExpectCallFits(x: Request, hsize: nat, passes: ExpectDump.Passes, d: ExpectDump.Dump, cap: nat)
    ensures var t := ExpectDump.Call(x, hsize, passes, d, cap);
            && d.sent <= t.sent
            && Bytes(x, t.sent[|d.sent|..]) <= cap
            && forall i :: |d.sent| <= i < |t.sent| ==> x.wanted(t.sent[i])
  {
    LoopFills(x, hsize, passes, 0, d.bucket, ExpectDump.Scan(d.cursor, [], d.sent, cap, false), d.cursor);
    hide ExpectDump.Loop, Bytes;
    var t := ExpectDump.Call(x, hsize, passes, d, cap);
    assert t.sent == d.sent + t.sent[|d.sent|..];
    BytesConcat(x, d.sent, t.sent[|d.sent|..]);
  }

  // ---------------------------------------------------------------- dying connections

  lemma {:induction false} ListFills(x: Request, live: ConnId -> bool, s: DyingDump.Walk, list: seq<ConnId>)
    requires s.cursor.None?
    ensures var r := DyingDump.WalkList(x, live, s, list);
            && Fills(x, s.sent, s.room, r.sent, r.room)
            && (r.cursor.Some? ==> x.wanted(r.cursor.value) && live(r.cursor.value) && x.len(r.cursor.value) > r.room)
    decreases |list|
  {
    if list != [] {
      var s' := DyingDump.Look(x, live, s, list[0]);
      if s'.sent != s.sent {
        OneFills(x, s.sent, s.room, list[0]);
      }
      assert Fills(x, s.sent, s.room, s'.sent, s'.room);
      if s'.cursor.None? {
        hide DyingDump.Look, Fills;
        ListFills(x, live, s', list[1..]);
        var r := DyingDump.WalkList(x, live, s, list);
        FillsTrans(x, s.sent, s.room, s'.sent, s'.room, r.sent, r.room);
      }
    } else {
      hide Bytes;
    }
  }

  /** So do those of the dying list; and the entry a call stops at was asked for and does not fit after them. */
  lemma DyingCallFits(x: Request, live: ConnId -> bool, list: seq<ConnId>, c: DyingDump.Ctx, cap: nat)
    requires !c.done
    ensures var t := DyingDump.Call(x, live, list, c, cap);
            && c.sent <= t.sent
            && Bytes(x, t.sent[|c.sent|..]) <= cap
            && (forall i :: |c.sent| <= i < |t.sent| ==> x.wanted(t.sent[i]))
            && (t.last.Some? ==> x.wanted(t.last.value) && Bytes(x, t.sent[|c.sent|..]) + x.len(t.last.value) > cap)
  {
    ListFills(x, live, DyingDump.Walk(c.last, None, c.sent, cap, c.gets, c.puts), list);
    hide DyingDump.WalkList, Bytes;
    var t := DyingDump.Call(x, live, list, c, cap);
    assert t.sent == c.sent + t.sent[|c.sent|..];
    BytesConcat(x, c.sent, t.sent[|c.sent|..]);
  }
}
