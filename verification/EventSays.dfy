/**
  Event messages, read from their bytes: which attributes are there for which
  bits of the event mask, and what they say.
 */
module EventSays {
  import opened Conntrack
  import opened Chains
  import opened Netlink
  import opened CtMessage
  import opened CtParse
  import opened RoundTrip
  import opened EventSize
  import opened Contents
  import opened MessageSays

  // ---------------------------------------------------------------- the parts of an event message

  function OpeningParts(c: Conn): (p: seq<seq<Attr>>)
    ensures |p| == 3
  {
    [TuplesAndZone(c), IdAttrs(c), StatusAttrs(c)]
  }

  function DestroyParts(c: Conn): (p: seq<seq<Attr>>)
    ensures |p| == 4
  {
    [When(true, TimeoutAttrs(c, true)), When(true, AcctAttrs(c)), When(true, TstampAttrs(c)),
     When(true, ProtoInfoAttrs(c, true, NO_FLAGS))]
  }

  function FirstUpdateParts(c: Conn, e: Events, secmarked: bool): (p: seq<seq<Attr>>)
    ensures |p| == 4
  {
    [When(true, TimeoutAttrs(c, false)), When(e.protoinfo, ProtoInfoAttrs(c, false, NO_FLAGS)),
     When(e.helper || c.help.Some?, HelpAttrs(c)), When(e.secmark || secmarked, SecctxAttrs(c))]
  }

  function LaterUpdateParts(c: Conn, e: Events): (p: seq<seq<Attr>>)
    ensures |p| == 4
  {
    [When(e.labels, LabelAttrs(c)), When(e.related, MasterAttrs(c)), When(e.seqadj, SeqAdjAttrs(c)),
     When(e.synproxy, SynProxyAttrs(c))]
  }

  function DestroyedParts(c: Conn, e: Events): (p: seq<seq<Attr>>)
    ensures |p| == 8
  {
    OpeningParts(c) + DestroyParts(c) + [MarkAttrs(c, e.mark)]
  }

  function UpdatedParts(c: Conn, e: Events, secmarked: bool): (p: seq<seq<Attr>>)
    ensures |p| == 12
  {
    OpeningParts(c) + (FirstUpdateParts(c, e, secmarked) + LaterUpdateParts(c, e)) + [MarkAttrs(c, e.mark)]
  }

  function DestroyedIds(): (p: seq<nat>)
    ensures |p| == 8
  {
    [1, 12, 3, 7, 9, 20, 4, 8]
  }

  function UpdatedIds(): (p: seq<nat>)
    ensures |p| == 12
  {
    [1, 12, 3, 7, 4, 5, 19, 22, 14, 15, 24, 8]
  }

  lemma FlattenThree(a: seq<Attr>, b: seq<Attr>, c: seq<Attr>)
    ensures Flatten([a, b, c]) == a + b + c
  {
    assert [a, b, c][..2] == [a, b];
    FlattenTwo(a, b);
  }

  lemma FlattenFour(a: seq<Attr>, b: seq<Attr>, c: seq<Attr>, d: seq<Attr>)
    ensures Flatten([a, b, c, d]) == a + b + c + d
  {
    assert [a, b, c, d][..3] == [a, b, c];
    FlattenThree(a, b, c);
  }

  /** Opening, middle and mark. */
  lemma EventFlattens(c: Conn, mark: bool, mid: seq<seq<Attr>>)
    ensures Flatten(OpeningParts(c) + mid + [MarkAttrs(c, mark)]) ==
            TuplesAndZone(c) + IdAttrs(c) + StatusAttrs(c) + Flatten(mid) + MarkAttrs(c, mark)
  {
    hide TuplesAndZone, IdAttrs, StatusAttrs, MarkAttrs;
    FlattenThree(TuplesAndZone(c), IdAttrs(c), StatusAttrs(c));
    FlattenOne(MarkAttrs(c, mark));
    hide Flatten;
    FlattenAppend(OpeningParts(c), mid);
    FlattenAppend(OpeningParts(c) + mid, [MarkAttrs(c, mark)]);
  }

  lemma DestroyFlattens(c: Conn)
    ensures Flatten(DestroyParts(c)) == DestroyAttrs(c)
  {
    hide TimeoutAttrs, AcctAttrs, TstampAttrs, ProtoInfoAttrs, Flatten;
    var p := DestroyParts(c);
    FlattenFour(p[0], p[1], p[2], p[3]);
  }

  lemma UpdateFlattens(c: Conn, e: Events, secmarked: bool)
    ensures Flatten(FirstUpdateParts(c, e, secmarked) + LaterUpdateParts(c, e)) == UpdateAttrs(c, e, secmarked)
  {
    hide TimeoutAttrs, ProtoInfoAttrs, HelpAttrs, SecctxAttrs, LabelAttrs, MasterAttrs, SeqAdjAttrs, SynProxyAttrs,
         Flatten;
    var p, q := FirstUpdateParts(c, e, secmarked), LaterUpdateParts(c, e);
    FlattenFour(p[0], p[1], p[2], p[3]);
    FlattenFour(q[0], q[1], q[2], q[3]);
    FlattenAppend(p, q);
    assert When(true, TimeoutAttrs(c, false)) == TimeoutAttrs(c, false);
    hide When;
  }

  lemma OpeningSorted(c: Conn, i: nat)
    requires i < 3
    ensures IsPart(OpeningParts(c)[i], [1, 12, 3][i])
  {
    hide TupleAttrs;
  }

  lemma DestroySorted(c: Conn, i: nat)
    requires i < 4
    ensures IsPart(DestroyParts(c)[i], [7, 9, 20, 4][i])
  {
    hide TcpAttrs;
  }

  lemma FirstUpdateSorted(c: Conn, e: Events, secmarked: bool, i: nat)
    requires i < 4
    ensures IsPart(FirstUpdateParts(c, e, secmarked)[i], [7, 4, 5, 19][i])
  {
    hide TcpAttrs;
  }

  lemma LaterUpdateSorted(c: Conn, e: Events, i: nat)
    requires i < 4
    ensures IsPart(LaterUpdateParts(c, e)[i], [22, 14, 15, 24][i])
  {
    hide LabelBytes, TupleAttrs, Status;
  }

  lemma MarkSorted(c: Conn, always: bool)
    ensures IsPart(MarkAttrs(c, always), 8)
  {
  }

  lemma DestroyedSorted(c: Conn, e: Events)
    ensures Sorted(DestroyedParts(c, e), DestroyedIds())
    ensures forall i :: 0 <= i < 8 ==> 1 <= DestroyedIds()[i] <= 24
  {
    hide IsPart, OpeningParts, DestroyParts, MarkAttrs;
    MarkSorted(c, e.mark);
    forall i | 0 <= i < 8
      ensures IsPart(DestroyedParts(c, e)[i], DestroyedIds()[i])
    {
      if i < 3 {
        OpeningSorted(c, i);
      } else if i < 7 {
        DestroySorted(c, i - 3);
      }
    }
  }

  lemma UpdatedSorted(c: Conn, e: Events, secmarked: bool)
    ensures Sorted(UpdatedParts(c, e, secmarked), UpdatedIds())
    ensures forall i :: 0 <= i < 12 ==> 1 <= UpdatedIds()[i] <= 24
  {
    hide IsPart, OpeningParts, FirstUpdateParts, LaterUpdateParts, MarkAttrs;
    MarkSorted(c, e.mark);
    forall i | 0 <= i < 12
      ensures IsPart(UpdatedParts(c, e, secmarked)[i], UpdatedIds()[i])
    {
      if i < 3 {
        OpeningSorted(c, i);
      } else if i < 7 {
        FirstUpdateSorted(c, e, secmarked, i - 3);
      } else if i < 11 {
        LaterUpdateSorted(c, e, i - 7);
      }
    }
  }

  /** Each part of an event message is read from its bytes, and a kind of no part is not there. */
  lemma DestroyedHolds(c: Conn, e: Events, secmarked: bool, j: nat)
    requires e.destroy && SizeAll(EventAttrs(c, e, secmarked)) < 0x1_0000 && j < 8
    ensures Holds(Parse(EncodeAll(EventAttrs(c, e, secmarked)), CTA_MAX), DestroyedParts(c, e)[j], DestroyedIds()[j])
  {
    hide Flatten, Parse, EncodeAll, SizeAll, Sorted, Holds, DestroyParts, OpeningParts, TuplesAndZone, IdAttrs,
         StatusAttrs, MarkAttrs, DestroyAttrs, UpdateAttrs, DestroyedIds;
    EventFlattens(c, e.mark, DestroyParts(c));
    DestroyFlattens(c);
    assert Flatten(DestroyedParts(c, e)) == EventAttrs(c, e, secmarked);
    DestroyedSorted(c, e);
    hide DestroyedParts;
    PartHolds(DestroyedParts(c, e), DestroyedIds(), j);
  }

  lemma UpdatedHolds(c: Conn, e: Events, secmarked: bool, j: nat)
    requires !e.destroy && SizeAll(EventAttrs(c, e, secmarked)) < 0x1_0000 && j < 12
    ensures Holds(Parse(EncodeAll(EventAttrs(c, e, secmarked)), CTA_MAX), UpdatedParts(c, e, secmarked)[j],
                  UpdatedIds()[j])
  {
    hide Flatten, Parse, EncodeAll, SizeAll, Sorted, Holds, FirstUpdateParts, LaterUpdateParts, OpeningParts,
         TuplesAndZone, IdAttrs, StatusAttrs, MarkAttrs, DestroyAttrs, UpdateAttrs, UpdatedIds;
    EventFlattens(c, e.mark, FirstUpdateParts(c, e, secmarked) + LaterUpdateParts(c, e));
    UpdateFlattens(c, e, secmarked);
    assert Flatten(UpdatedParts(c, e, secmarked)) == EventAttrs(c, e, secmarked);
    UpdatedSorted(c, e, secmarked);
    hide UpdatedParts;
    PartHolds(UpdatedParts(c, e, secmarked), UpdatedIds(), j);
  }

  // ---------------------------------------------------------------- the parts by their numbers

  lemma DestroyedTable(c: Conn, e: Events, secmarked: bool)
    requires e.destroy && SizeAll(EventAttrs(c, e, secmarked)) < 0x1_0000
    ensures var tb := Parse(EncodeAll(EventAttrs(c, e, secmarked)), 26);
            && Holds(tb, IdAttrs(c), 12) && Holds(tb, StatusAttrs(c), 3)
            && Holds(tb, When(true, TimeoutAttrs(c, true)), 7)
            && Holds(tb, When(true, AcctAttrs(c)), 9) && Holds(tb, When(true, TstampAttrs(c)), 20)
            && Holds(tb, When(true, ProtoInfoAttrs(c, true, NO_FLAGS)), 4) && Holds(tb, MarkAttrs(c, e.mark), 8)
  {
    hide Parse, EncodeAll, SizeAll, EventAttrs, Holds, When, IdAttrs, StatusAttrs, TimeoutAttrs, AcctAttrs, TstampAttrs,
         ProtoInfoAttrs, MarkAttrs;
    DestroyedHolds(c, e, secmarked, 1);
    DestroyedHolds(c, e, secmarked, 2);
    DestroyedHolds(c, e, secmarked, 3);
    DestroyedHolds(c, e, secmarked, 4);
    DestroyedHolds(c, e, secmarked, 5);
    DestroyedHolds(c, e, secmarked, 6);
    DestroyedHolds(c, e, secmarked, 7);
  }

  lemma UpdatedTable(c: Conn, e: Events, secmarked: bool)
    requires !e.destroy && SizeAll(EventAttrs(c, e, secmarked)) < 0x1_0000
    ensures var tb := Parse(EncodeAll(EventAttrs(c, e, secmarked)), 26);
            && Holds(tb, IdAttrs(c), 12) && Holds(tb, StatusAttrs(c), 3)
            && Holds(tb, When(true, TimeoutAttrs(c, false)), 7)
            && Holds(tb, When(e.protoinfo, ProtoInfoAttrs(c, false, NO_FLAGS)), 4)
            && Holds(tb, When(e.helper || c.help.Some?, HelpAttrs(c)), 5)
            && Holds(tb, When(e.secmark || secmarked, SecctxAttrs(c)), 19) && Holds(tb, MarkAttrs(c, e.mark), 8)
  {
    hide Parse, EncodeAll, SizeAll, EventAttrs, Holds, When, IdAttrs, StatusAttrs, TimeoutAttrs, HelpAttrs, SecctxAttrs,
         ProtoInfoAttrs, MarkAttrs, LaterUpdateParts;
    UpdatedHolds(c, e, secmarked, 1);
    UpdatedHolds(c, e, secmarked, 2);
    UpdatedHolds(c, e, secmarked, 3);
    UpdatedHolds(c, e, secmarked, 4);
    UpdatedHolds(c, e, secmarked, 5);
    UpdatedHolds(c, e, secmarked, 6);
    UpdatedHolds(c, e, secmarked, 11);
  }

  lemma UpdatedTableLater(c: Conn, e: Events, secmarked: bool)
    requires !e.destroy && SizeAll(EventAttrs(c, e, secmarked)) < 0x1_0000
    ensures var tb := Parse(EncodeAll(EventAttrs(c, e, secmarked)), 26);
            && Holds(tb, When(e.labels, LabelAttrs(c)), 22) && Holds(tb, When(e.related, MasterAttrs(c)), 14)
            && Holds(tb, When(e.seqadj, SeqAdjAttrs(c)), 15) && Holds(tb, When(e.synproxy, SynProxyAttrs(c)), 24)
  {
    hide Parse, EncodeAll, SizeAll, EventAttrs, Holds, When, LabelAttrs, MasterAttrs, SeqAdjAttrs, SynProxyAttrs,
         OpeningParts, FirstUpdateParts;
    UpdatedHolds(c, e, secmarked, 7);
    UpdatedHolds(c, e, secmarked, 8);
    UpdatedHolds(c, e, secmarked, 9);
    UpdatedHolds(c, e, secmarked, 10);
  }

  /** A kind that belongs to no part of an event message is not in it. */
  lemma EventLacks(c: Conn, e: Events, secmarked: bool, k: nat)
    requires SizeAll(EventAttrs(c, e, secmarked)) < 0x1_0000
    requires if e.destroy then Part(k) !in DestroyedIds() else Part(k) !in UpdatedIds()
    ensures k !in Parse(EncodeAll(EventAttrs(c, e, secmarked)), 26)
  {
    hide Flatten, Parse, EncodeAll, SizeAll, Sorted, DestroyParts, OpeningParts, FirstUpdateParts, LaterUpdateParts,
         TuplesAndZone, IdAttrs, StatusAttrs, MarkAttrs, DestroyAttrs, UpdateAttrs, DestroyedIds, UpdatedIds, Part,
         TableOf, Sized;
    var parts, ids := if e.destroy then DestroyedParts(c, e) else UpdatedParts(c, e, secmarked),
                      if e.destroy then DestroyedIds() else UpdatedIds();
    if e.destroy {
      EventFlattens(c, e.mark, DestroyParts(c));
      DestroyFlattens(c);
      DestroyedSorted(c, e);
    } else {
      EventFlattens(c, e.mark, FirstUpdateParts(c, e, secmarked) + LaterUpdateParts(c, e));
      UpdateFlattens(c, e, secmarked);
      UpdatedSorted(c, e, secmarked);
    }
    assert Flatten(parts) == EventAttrs(c, e, secmarked);
    hide DestroyedParts, UpdatedParts, EventAttrs;
    FlattenKinds(parts, ids);
    MembersSized(Flatten(parts));
    ParseEncoded(Flatten(parts), CTA_MAX);
    FlattenAbsent(parts, ids, k);
  }

  // ---------------------------------------------------------------- what events say

  /**
    Every event says the identifier and the status; the mark if it changed or is not zero; and the timeout, except
    one of zero in a destroy event. None says the number of references.
   */
  lemma EventSaysInfo(c: Conn, mask: U32, secmarked: bool)
    requires SizeAll(EventAttrs(c, EventsOf(mask), secmarked)) < 0x1_0000
    ensures var tb := Parse(EncodeAll(EventAttrs(c, EventsOf(mask), secmarked)), 26);
            && Number(tb, 12) == Some(c.id) && Number(tb, 3) == Some(c.info.status)
            && Number(tb, 8) == (if Bit(mask, 7) || c.info.mark != 0 then Some(c.info.mark) else None)
            && Number(tb, 7) == (if Bit(mask, 2) && c.timeout == 0 then None else Some(c.timeout))
            && 11 !in tb
  {
    hide Parse, EncodeAll, SizeAll, EventAttrs, Holds, Number, When, TimeoutAttrs, IdAttrs, StatusAttrs, MarkAttrs, Bit,
         ProtoInfoAttrs, HelpAttrs, SecctxAttrs, AcctAttrs, TstampAttrs;
    var e := EventsOf(mask);
    var tb := Parse(EncodeAll(EventAttrs(c, e, secmarked)), CTA_MAX);
    if e.destroy {
      DestroyedTable(c, e, secmarked);
    } else {
      UpdatedTable(c, e, secmarked);
    }
    IdSays(c, tb);
    StatusSays(c, tb);
    MarkSays(c, e.mark, tb);
    TimeoutSays(c, true, e.destroy, tb);
    EventLacks(c, e, secmarked, 11);
  }

  /** A destroy event says the counters and the times, and none of what can still change. */
  lemma DestroySays(c: Conn, mask: U32, secmarked: bool)
    requires Bit(mask, 2) && SizeAll(EventAttrs(c, EventsOf(mask), secmarked)) < 0x1_0000
    ensures var tb := Parse(EncodeAll(EventAttrs(c, EventsOf(mask), secmarked)), 26);
            && (c.acct.Some? ==>
                  var n := c.acct.value;
                  && Inner(tb, 9, 1) == Some(n.orig.packets) && Inner(tb, 9, 2) == Some(n.orig.bytes)
                  && Inner(tb, 10, 1) == Some(n.reply.packets) && Inner(tb, 10, 2) == Some(n.reply.bytes))
            && (c.acct.None? ==> 9 !in tb && 10 !in tb)
            && Inner(tb, 20, 1) == (if c.tstamp.Some? then Some(c.tstamp.value.start) else None)
            && Inner(tb, 20, 2) == (if c.tstamp.Some? then c.tstamp.value.stop else None)
            && Lookup(tb, 4) == (if c.hook.Some? then Some(EncodeAll(c.hook.value.destroy)) else None)
            && 5 !in tb && 14 !in tb && 15 !in tb && 16 !in tb && 19 !in tb && 22 !in tb && 24 !in tb
  {
    hide Parse, EncodeAll, SizeAll, EventAttrs, Holds, Inner, When, AcctAttrs, TstampAttrs, ProtoInfoAttrs, Bit,
         TimeoutAttrs, IdAttrs, StatusAttrs, MarkAttrs;
    var e := EventsOf(mask);
    var tb := Parse(EncodeAll(EventAttrs(c, e, secmarked)), CTA_MAX);
    DestroyedTable(c, e, secmarked);
    AcctSays(c, true, tb);
    TstampSays(c, true, tb);
    ProtoInfoSays(c, true, true, NO_FLAGS, tb);
    EventLacks(c, e, secmarked, 5);
    EventLacks(c, e, secmarked, 14);
    EventLacks(c, e, secmarked, 15);
    EventLacks(c, e, secmarked, 16);
    EventLacks(c, e, secmarked, 19);
    EventLacks(c, e, secmarked, 22);
    EventLacks(c, e, secmarked, 24);
  }

  /**
    Any other event says what its bits name: the protocol's state, the helper (also without its bit, if there is the
    extension), the security label (also without its bit, if there is a mark); and never counters or times.
   */
  lemma UpdateSays(c: Conn, mask: U32, secmarked: bool)
    requires !Bit(mask, 2) && SizeAll(EventAttrs(c, EventsOf(mask), secmarked)) < 0x1_0000
    ensures var tb := Parse(EncodeAll(EventAttrs(c, EventsOf(mask), secmarked)), 26);
            && Lookup(tb, 4) == (if Bit(mask, 5) && c.hook.Some? then Some(EncodeAll(c.hook.value.normal)) else None)
            && Inner(tb, 5, 1) == (match c.help case Some(Some(name)) => Some(name + [0]) case _ => None)
            && Inner(tb, 19, 1) ==
               (if (Bit(mask, 9) || secmarked) && c.secctx.Some? then Some(c.secctx.value.text + [0]) else None)
            && 9 !in tb && 10 !in tb && 20 !in tb
  {
    hide Parse, EncodeAll, SizeAll, EventAttrs, Holds, Inner, When, ProtoInfoAttrs, HelpAttrs, SecctxAttrs, Bit,
         TimeoutAttrs, IdAttrs, StatusAttrs, MarkAttrs;
    var e := EventsOf(mask);
    var tb := Parse(EncodeAll(EventAttrs(c, e, secmarked)), CTA_MAX);
    UpdatedTable(c, e, secmarked);
    ProtoInfoSays(c, e.protoinfo, false, NO_FLAGS, tb);
    HelpSays(c, e.helper || c.help.Some?, tb);
    SecctxSays(c, e.secmark || secmarked, tb);
    EventLacks(c, e, secmarked, 9);
    EventLacks(c, e, secmarked, 10);
    EventLacks(c, e, secmarked, 20);
  }

  /** And the labels, the master of a related connection, the sequence adjustments and the synproxy state. */
  lemma UpdateSaysMore(c: Conn, mask: U32, secmarked: bool, z: Zone)
    requires !Bit(mask, 2) && SizeAll(EventAttrs(c, EventsOf(mask), secmarked)) < 0x1_0000
    requires Complete(c.master) && c.master.dir == Original
    ensures var tb := Parse(EncodeAll(EventAttrs(c, EventsOf(mask), secmarked)), 26);
            && Lookup(tb, 22) ==
               (if Bit(mask, 10) && c.labels.Some? && (exists i :: 0 <= i < |c.labels.value| && c.labels.value[i] != 0)
                then Some(LabelBytes(c.labels.value)) else None)
            && (14 in tb <==> Bit(mask, 1) && c.info.status % 2 == 1)
            && (14 in tb ==> ParseTupleFilter(tb[14], 14, c.master.l3num, z, ALL_FLAGS) == Ok((c.master, z)))
            && (if Bit(mask, 8) && c.seqadj.Some? && c.info.status / 0x40 % 2 == 1 then
                  var (o, r) := c.seqadj.value;
                  && InnerNumber(tb, 15, 1) == Some(o.pos) && InnerNumber(tb, 15, 2) == Some(o.before)
                  && InnerNumber(tb, 15, 3) == Some(o.after) && InnerNumber(tb, 16, 1) == Some(r.pos)
                  && InnerNumber(tb, 16, 2) == Some(r.before) && InnerNumber(tb, 16, 3) == Some(r.after)
                else 15 !in tb && 16 !in tb)
            && (if Bit(mask, 11) && c.synproxy.Some? then
                  var s := c.synproxy.value;
                  && InnerNumber(tb, 24, 1) == Some(s.isn) && InnerNumber(tb, 24, 2) == Some(s.its)
                  && InnerNumber(tb, 24, 3) == Some(s.tsoff)
                else 24 !in tb)
  {
    hide Parse, EncodeAll, SizeAll, EventAttrs, Holds, InnerNumber, When, LabelAttrs, MasterAttrs, SeqAdjAttrs,
         SynProxyAttrs, Bit, LabelBytes, ParseTupleFilter, Complete;
    var e := EventsOf(mask);
    var tb := Parse(EncodeAll(EventAttrs(c, e, secmarked)), CTA_MAX);
    UpdatedTableLater(c, e, secmarked);
    LabelsSay(c, e.labels, tb);
    MasterSays(c, e.related, tb, z);
    SeqAdjSays(c, e.seqadj, tb);
    SynProxySays(c, e.synproxy, tb);
  }

  // ---------------------------------------------------------------- tuples and zone

  /** What an event message has after the tuples and the zone. */
  function EventRest(c: Conn, e: Events, secmarked: bool): seq<Attr> {
    IdAttrs(c) + StatusAttrs(c) + (if e.destroy then DestroyAttrs(c) else UpdateAttrs(c, e, secmarked))
    + MarkAttrs(c, e.mark)
  }

  lemma DestroyIsOther(c: Conn)
    ensures AllOther(DestroyAttrs(c))
  {
    assert AllOther(TimeoutAttrs(c, true)) && AllOther(AcctAttrs(c)) && AllOther(TstampAttrs(c));
    assert AllOther(ProtoInfoAttrs(c, true, NO_FLAGS)) by {
      hide TcpAttrs;
    }
    hide TimeoutAttrs, AcctAttrs, TstampAttrs, ProtoInfoAttrs, Other;
  }

  lemma FirstUpdatesAreOther(c: Conn, e: Events, secmarked: bool)
    ensures AllOther(FirstUpdates(c, e, secmarked))
  {
    assert AllOther(TimeoutAttrs(c, false)) && AllOther(HelpAttrs(c)) && AllOther(SecctxAttrs(c));
    assert AllOther(ProtoInfoAttrs(c, false, NO_FLAGS)) by {
      hide TcpAttrs;
    }
    hide TimeoutAttrs, HelpAttrs, SecctxAttrs, ProtoInfoAttrs, Other;
  }

  lemma LaterUpdatesAreOther(c: Conn, e: Events)
    requires c.labels.Some? ==> |c.labels.value| <= 4
    ensures AllOther(LaterUpdates(c, e))
  {
    if c.labels.Some? {
      LabelLength(c.labels.value);
    }
    assert AllOther(LabelAttrs(c)) by {
      hide LabelBytes;
    }
    assert AllOther(MasterAttrs(c)) && AllOther(SeqAdjAttrs(c)) && AllOther(SynProxyAttrs(c));
    hide LabelAttrs, MasterAttrs, SeqAdjAttrs, SynProxyAttrs, Other;
  }

  lemma EventIsOther(c: Conn, e: Events, secmarked: bool)
    requires c.labels.Some? ==> |c.labels.value| <= 4
    ensures AllOther(EventRest(c, e, secmarked))
  {
    assert AllOther(IdAttrs(c)) && AllOther(StatusAttrs(c)) && AllOther(MarkAttrs(c, e.mark));
    if e.destroy {
      DestroyIsOther(c);
    } else {
      FirstUpdatesAreOther(c, e, secmarked);
      LaterUpdatesAreOther(c, e);
    }
    hide Other, IdAttrs, StatusAttrs, MarkAttrs, DestroyAttrs, FirstUpdates, LaterUpdates;
  }

  lemma EventIsRest(c: Conn, e: Events, secmarked: bool)
    ensures EventAttrs(c, e, secmarked) == TuplesAndZone(c) + EventRest(c, e, secmarked)
  {
    hide IdAttrs, StatusAttrs, MarkAttrs, DestroyAttrs, UpdateAttrs, TuplesAndZone;
    var t, i, s, m := TuplesAndZone(c), IdAttrs(c), StatusAttrs(c), MarkAttrs(c, e.mark);
    var mid := if e.destroy then DestroyAttrs(c) else UpdateAttrs(c, e, secmarked);
    assert EventAttrs(c, e, secmarked) == t + i + s + mid + m && EventRest(c, e, secmarked) == i + s + mid + m;
    hide EventAttrs, EventRest;
    Assoc(t, i, s);
    Assoc(t, i + s, mid);
    Assoc(t, i + s + mid, m);
  }

  /** An event message names the tuples and the zone of its connection, as a dump message does. */
  lemma EventThenParse(c: Conn, mask: U32, secmarked: bool)
    requires Dumpable(c) && SizeAll(EventAttrs(c, EventsOf(mask), secmarked)) < 0x1_0000
    ensures ParseNew(EncodeAll(EventAttrs(c, EventsOf(mask), secmarked)), c.info.orig.l3num) ==
            Ok((c.info.orig, c.info.reply, Understood(c.info.zone)))
  {
    EventIsRest(c, EventsOf(mask), secmarked);
    EventIsOther(c, EventsOf(mask), secmarked);
    hide EncodeAll, EventAttrs, SizeAll, ParseNew, Understood, TuplesAndZone, EventRest, Complete, EventsOf;
    TuplesThenParse(c, EventRest(c, EventsOf(mask), secmarked));
  }
}
