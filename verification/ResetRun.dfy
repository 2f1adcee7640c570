/**
  The reset command from end to end: packets pass the tracker, a dump of a
  zone is written and read back, a flow is chosen, and two resets are made.
 */
module ResetRun {
  import opened Conntrack
  import opened Netlink
  import opened CtMessage
  import opened CtParse
  import opened RoundTrip
  import opened Tracker
  import opened TrackerRuns
  import opened Reset
  import opened TableDump
  import opened DumpCoverage
  import opened DumpOnce
  import opened ZoneDumps

  /** A dump by zone, with the export switched on. */
  const EXPORTING := Flags(true, true)

  /** The attributes of a connection's message in such a dump. */
  function Exported(c: Conn): seq<Byte> {
    EncodeAll(DumpAttrs(c, true, EXPORTING))
  }

  predicate Sendable(c: Conn) {
    Dumpable(c) && SizeAll(DumpAttrs(c, true, EXPORTING)) < 0x1_0000
  }

  /** The connections that can be reset: TCP, not offloaded, with the ports asked for. */
  predicate Resettable(c: Conn, sport: U16, dport: U16) {
    && c.info.orig.protonum == IPPROTO_TCP && !Status(c, IPS_OFFLOAD)
    && (sport == 0 || SourcePort(c.info.orig) == sport) && (dport == 0 || DestinationPort(c.info.orig) == dport)
  }

  // ---------------------------------------------------------------- one message

  /** An offloaded connection's message says nothing about its protocol. */
  lemma OffloadedIsSilent(c: Conn)
    requires Status(c, IPS_OFFLOAD)
    ensures KindFree(DumpAttrs(c, true, EXPORTING), CTA_PROTOINFO)
  {
    assert KindFree(TuplesAndZone(c), CTA_PROTOINFO) by {
      hide TupleAttrs;
    }
    assert KindFree(StatusAttrs(c), CTA_PROTOINFO) && KindFree(MarkAttrs(c, true), CTA_PROTOINFO);
    assert KindFree(SecctxAttrs(c), CTA_PROTOINFO) && KindFree(IdAttrs(c), CTA_PROTOINFO);
    assert KindFree(UseAttrs(c), CTA_PROTOINFO) && KindFree(MasterAttrs(c), CTA_PROTOINFO);
    ExtKinds(c);
    hide TuplesAndZone, StatusAttrs, MarkAttrs, SecctxAttrs, IdAttrs, UseAttrs, MasterAttrs, ExtAttrs, Status;
  }

  lemma OffloadedHasNoTcp(c: Conn)
    requires Status(c, IPS_OFFLOAD) && Sendable(c)
    ensures TcpPart(Exported(c)).None?
  {
    OffloadedIsSilent(c);
    DumpSized(c, true, EXPORTING);
    hide DumpAttrs, Sized, Parse, TableOf, EncodeAll, Dumpable, SizeAll, Status;
    ParseEncoded(DumpAttrs(c, true, EXPORTING), ANY_KIND);
    TableKinds(DumpAttrs(c, true, EXPORTING), ANY_KIND, CTA_PROTOINFO);
  }

  /** What the client reads in a message: the loop stops at it exactly if the connection can be reset. */
  lemma ReadsConnection(c: Conn, sport: U16, dport: U16)
    requires Sendable(c)
    ensures var flow := ReadFlow(Exported(c), c.info.orig.l3num);
            && flow.Some? && flow.value.orig == c.info.orig
            && (Usable(flow.value, sport, dport) <==> Resettable(c, sport, dport))
            && (Resettable(c, sport, dport) ==> flow.value.seqTrack == Some(c.tcp))
  {
    hide DumpAttrs, EncodeAll, SizeAll, ParseNew, Complete, TcpPart, Understood, ZoneCount;
    DumpThenParse(c, true, EXPORTING);
    if c.info.orig.protonum == IPPROTO_TCP {
      if Status(c, IPS_OFFLOAD) {
        OffloadedHasNoTcp(c);
      } else {
        assert OwnTcp(c, EXPORTING);
        ExportReads(c, true, EXPORTING);
      }
    }
    hide DumpAttrs, EncodeAll, SizeAll, ParseNew, Dumpable, Status, TcpPart;
  }

  // ---------------------------------------------------------------- the command

  /** A message as the client gets it: the family in its header, and its attributes. */
  datatype Received = Received(family: Byte, attrs: seq<Byte>)

  /** The messages of a list of connections. */
  ghost predicate DumpOf(messages: seq<Received>, conns: seq<Conn>) {
    && |messages| == |conns|
    && forall i :: 0 <= i < |conns| ==>
         Sendable(conns[i]) && messages[i] == Received(conns[i].info.orig.l3num, Exported(conns[i]))
  }

  method ReadFlows(messages: seq<Received>) returns (flows: Option<seq<Flow>>)
    ensures flows.None? <==> exists i :: 0 <= i < |messages| && ReadFlow(messages[i].attrs, messages[i].family).None?
    ensures flows.Some? ==>
              && |flows.value| == |messages|
              && forall i :: 0 <= i < |messages| ==>
                   ReadFlow(messages[i].attrs, messages[i].family) == Some(flows.value[i])
  {
    hide ReadFlow;
    var read := [];
    for i := 0 to |messages|
      invariant |read| == i
      invariant forall j :: 0 <= j < i ==> ReadFlow(messages[j].attrs, messages[j].family) == Some(read[j])
    {
      var flow := ReadFlow(messages[i].attrs, messages[i].family);
      if flow.None? {
        return None;
      }
      read := read + [flow.value];
    }
    return Some(read);
  }

  /** The two resets for a connection, from its history. */
  predicate ResetsOf(c: Conn, t0: TcpState, history: seq<Arrival>, one: TcpInfo, two: TcpInfo) {
    && one.dstIp == c.info.orig.src && one.dstPort == SourcePort(c.info.orig)
    && one.srcIp == c.info.orig.dst && one.srcPort == DestinationPort(c.info.orig)
    && one.seqno == LatestAck(t0.lastAck, history) && one.ackno == LatestSeq(t0.lastSeq, history)
    && two.dstIp == c.info.orig.dst && two.dstPort == DestinationPort(c.info.orig)
    && two.srcIp == c.info.orig.src && two.srcPort == SourcePort(c.info.orig)
    && two.seqno == LatestSeq(t0.lastSeq, history) && two.ackno == LatestAck(t0.lastAck, history)
  }

  /** What the tracker has made of each connection: its fields at the start, and the packets since. */
  datatype Past = Past(t0: TcpState, history: seq<Arrival>)

  ghost predicate TrackedAs(conns: seq<Conn>, pasts: seq<Past>) {
    |pasts| == |conns| && forall i :: 0 <= i < |conns| ==> conns[i].tcp == Run(pasts[i].t0, pasts[i].history)
  }

  lemma ResetsFollow(c: Conn, past: Past, sport: U16, dport: U16)
    requires Sendable(c) && Resettable(c, sport, dport) && c.tcp == Run(past.t0, past.history)
    ensures ReadFlow(Exported(c), c.info.orig.l3num).Some?
    ensures var flow := ReadFlow(Exported(c), c.info.orig.l3num).value;
            flow.seqTrack.Some? && ResetsOf(c, past.t0, past.history, ResetFor(flow), Mirror(ResetFor(flow)))
  {
    ReadsConnection(c, sport, dport);
    RunRefinesHistory(past.t0, past.history);
    hide ReadFlow, Exported, Run, LatestSeq, LatestAck, Sendable, Status;
  }

  /** The numbers of the two resets, by the positions in the history of the packets that carried them. */
  lemma ResetNumbers(c: Conn, past: Past, one: TcpInfo, two: TcpInfo, latest: nat, acked: nat)
    requires ResetsOf(c, past.t0, past.history, one, two)
    requires LatestTracked(past.history, latest)
    requires acked < |past.history| && Acknowledges(past.history[acked])
    requires forall j :: acked < j < |past.history| ==> !Acknowledges(past.history[j])
    ensures one.seqno == two.ackno == Tracked(past.history[acked]).value.ackno
    ensures two.seqno == one.ackno == Tracked(past.history[latest]).value.seqno
  {
    LatestIsLast(past.t0.lastSeq, past.history, latest);
    LatestAckIsLast(past.t0.lastAck, past.history, acked);
    hide Tracked, LatestSeq, LatestAck;
  }

  /**
    The command on the messages of a dump. It makes resets exactly if some connection can be reset, and then for the
    first of those. The reset to the original source has as its sequence number the latest nonzero acknowledgement
    in that connection's history, which for packets of the original direction is the number that source expects next
    (section 3.2 of RFC 5961); the other one goes to the original destination, with the latest sequence number.
   */
  method CtReset(messages: seq<Received>, sport: U16, dport: U16, ghost conns: seq<Conn>, ghost pasts: seq<Past>)
    returns (resets: Option<(TcpInfo, TcpInfo)>)
    requires DumpOf(messages, conns) && TrackedAs(conns, pasts)
    ensures resets.None? <==> forall i :: 0 <= i < |conns| ==> !Resettable(conns[i], sport, dport)
    ensures resets.Some? ==>
              exists i :: 0 <= i < |conns| && Resettable(conns[i], sport, dport)
                          && (forall j :: 0 <= j < i ==> !Resettable(conns[j], sport, dport))
                          && ResetsOf(conns[i], pasts[i].t0, pasts[i].history, resets.value.0, resets.value.1)
  {
    hide ReadFlow, Exported, Resettable, ResetsOf, Run, Sendable, DumpOf, ResetFor, Mirror, SourcePort, DestinationPort;
    ReadsAll(messages, conns, sport, dport);
    var flows := ReadFlows(messages);
    if flows.None? {
      return None;
    }
    var info := GetTcpInfo(flows.value, sport, dport);
    if info.None? {
      return None;
    }
    var mirror := BuildMirror(info.value);
    resets := Some((info.value, mirror));
    ghost var i :| 0 <= i < |flows.value| && Usable(flows.value[i], sport, dport) &&
                   info.value == ResetFor(flows.value[i])
                   && forall j :: 0 <= j < i ==> !Usable(flows.value[j], sport, dport);
    ResetsAt(messages, conns, pasts, i, sport, dport);
  }

  /** Every message is read as the flow of its connection. */
  lemma ReadsAll(messages: seq<Received>, conns: seq<Conn>, sport: U16, dport: U16)
    requires DumpOf(messages, conns)
    ensures |messages| == |conns|
    ensures forall i :: 0 <= i < |conns| ==> ReadsAt(messages[i], conns[i], sport, dport)
  {
    hide ReadFlow, Exported, Usable, Resettable, Sendable;
    forall i | 0 <= i < |conns|
      ensures ReadsAt(messages[i], conns[i], sport, dport)
    {
      ReadsConnection(conns[i], sport, dport);
    }
  }

  predicate ReadsAt(m: Received, c: Conn, sport: U16, dport: U16) {
    var flow := ReadFlow(m.attrs, m.family);
    flow.Some? && (Usable(flow.value, sport, dport) <==> Resettable(c, sport, dport))
  }

  lemma ResetsAt(messages: seq<Received>, conns: seq<Conn>, pasts: seq<Past>, i: nat, sport: U16, dport: U16)
    requires DumpOf(messages, conns) && TrackedAs(conns, pasts) && i < |conns| && Resettable(conns[i], sport, dport)
    ensures |messages| == |pasts| == |conns|
    ensures var flow := ReadFlow(messages[i].attrs, messages[i].family);
            && flow.Some? && flow.value.seqTrack.Some?
            && ResetsOf(conns[i], pasts[i].t0, pasts[i].history, ResetFor(flow.value), Mirror(ResetFor(flow.value)))
  {
    hide ReadFlow, Exported, Resettable, ResetsOf, Run, Sendable, ResetFor, Mirror;
    ResetsFollow(conns[i], pasts[i], sport, dport);
  }

  // ---------------------------------------------------------------- from the table to the resets

  /** What the client takes from the bytes of a message: the family, and what follows the headers. */
  function Receive(bytes: seq<Byte>): Received
    requires |bytes| >= NLMSG_HDRLEN + NFGENMSG_LEN
  {
    Received(bytes[NLMSG_HDRLEN], bytes[NLMSG_HDRLEN + NFGENMSG_LEN..])
  }

  lemma HeadFamily(h: Head, len: nat)
    ensures HeadBytes(h, len)[NLMSG_HDRLEN] == h.family
  {
  }

  lemma ReceiveMessage(h: Head, c: Conn)
    requires h.family == c.info.orig.l3num
    ensures var m := Message(h, DumpAttrs(c, true, EXPORTING));
            |m| >= NLMSG_HDRLEN + NFGENMSG_LEN && Receive(m) == Received(c.info.orig.l3num, Exported(c))
  {
    HeadFamily(h, NLMSG_HDRLEN + NFGENMSG_LEN + |Exported(c)|);
    hide HeadBytes, DumpAttrs, EncodeAll;
  }

  /** The messages a dump of a list of entries writes, as the client takes them. */
  method DumpMessages(w: World, ids: seq<ConnId>, h: Head) returns (messages: seq<Received>)
    ensures |messages| == |ids|
    ensures forall i :: 0 <= i < |ids| ==>
              var c := w.entries(ids[i]).conn; messages[i] == Received(c.info.orig.l3num, Exported(c))
  {
    hide Exported, Message, Receive;
    messages := [];
    for i := 0 to |ids|
      invariant |messages| == i
      invariant forall j :: 0 <= j < i ==>
                  var c := w.entries(ids[j]).conn; messages[j] == Received(c.info.orig.l3num, Exported(c))
    {
      var c := w.entries(ids[i]).conn;
      ReceiveMessage(h.(family := c.info.orig.l3num), c);
      messages := messages + [Receive(Message(h.(family := c.info.orig.l3num), DumpAttrs(c, true, EXPORTING)))];
    }
  }

  /** The connections a finished dump of a zone has sent are that zone's, in that namespace. */
  lemma DumpedInZone(w: World, net: nat, z: U16, caps: seq<nat>, c: ConnId)
    requires Unique(w.buckets)
    requires forall i :: 0 <= i < |caps| ==> AllFit(ZoneQuery(net, z, true), Start(w), caps[i])
    requires |caps| > |Everything(ZoneQuery(net, z, true), w)|
    requires c in Calls(ZoneQuery(net, z, true), Start(w), caps).d.sent
    ensures Linked(w, Node(c, Original)) && w.entries(c).net == net && ZoneOf(w.entries, c) == z
  {
    DumpSendsEachOnce(ZoneQuery(net, z, true), w, caps, c);
    ZoneMember(w, net, z, true, c);
  }

  /** A live connection of the zone that can be reset. */
  predicate Candidate(w: World, net: nat, z: U16, c: ConnId, sport: U16, dport: U16) {
    && Linked(w, Node(c, Original)) && !w.entries(c).expired && w.entries(c).net == net && ZoneOf(w.entries, c) == z
    && Resettable(w.entries(c).conn, sport, dport)
  }

  /** What the tracker has made of the connections of the zone's dump, all of which can be written. */
  ghost predicate ZonePasts(w: World, net: nat, z: U16, pasts: ConnId -> Past) {
    forall c :: c in Everything(ZoneQuery(net, z, true), w) ==>
      Sendable(w.entries(c).conn) && w.entries(c).conn.tcp == Run(pasts(c).t0, pasts(c).history)
  }

  lemma ZoneCandidates(w: World, net: nat, z: U16, c: ConnId, sport: U16, dport: U16)
    requires Unique(w.buckets)
    ensures c in Everything(ZoneQuery(net, z, true), w) && Resettable(w.entries(c).conn, sport, dport) <==>
            Candidate(w, net, z, c, sport, dport)
  {
    var q := ZoneQuery(net, z, true);
    SelFromCounts(q, w, 0, c);
    assert c in Everything(q, w) <==> multiset(Everything(q, w))[c] > 0;
    assert LinkedFrom(w.buckets, 0, Node(c, Original)) <==> Linked(w, Node(c, Original));
    ZoneSelected(Dumping(net, None, true), w.entries, net, z, true, Node(c, Original));
    hide ZoneQuery, Resettable, ZoneOf, SelFrom;
  }

  /**
    The whole way: the zone is dumped in any buffers that hold its messages, the messages are written and taken
    apart, and the command makes resets exactly if the zone has a live connection that can be reset. They are for one
    of those, with the latest nonzero acknowledgement and the latest sequence number of its history.
   */
  method ResetZone(w: World, net: nat, z: U16, caps: seq<nat>, h: Head, sport: U16, dport: U16,
                   ghost pasts: ConnId -> Past)
    returns (resets: Option<(TcpInfo, TcpInfo)>)
    requires Unique(w.buckets) && ZonePasts(w, net, z, pasts)
    requires forall i :: 0 <= i < |caps| ==> AllFit(ZoneQuery(net, z, true), Start(w), caps[i])
    requires |caps| > |Everything(ZoneQuery(net, z, true), w)|
    ensures resets.None? <==> forall c :: !Candidate(w, net, z, c, sport, dport)
    ensures resets.Some? ==>
              exists c :: Candidate(w, net, z, c, sport, dport)
                          && ResetsOf(w.entries(c).conn, pasts(c).t0, pasts(c).history, resets.value.0, resets.value.1)
  {
    hide Everything, ZoneQuery, Calls, AllFit, Unique, DumpOf, TrackedAs, Candidate, Resettable, ResetsOf, ZonePasts,
         Sendable, Exported, Run;
    var q := ZoneQuery(net, z, true);
    var ids := Calls(q, Start(w), caps).d.sent;
    DumpSendsEachOnce(q, w, caps, 0);
    var messages := DumpMessages(w, ids, h);
    ghost var conns, past := ConnsOf(w, ids), PastsOf(pasts, ids);
    ZoneIsDumped(w, net, z, pasts, ids, messages);
    resets := CtReset(messages, sport, dport, conns, past);
    if resets.Some? {
      ghost var i :| 0 <= i < |conns| && Resettable(conns[i], sport, dport)
                     && ResetsOf(conns[i], past[i].t0, past[i].history, resets.value.0, resets.value.1);
      ZoneCandidates(w, net, z, ids[i], sport, dport);
      assert Candidate(w, net, z, ids[i], sport, dport);
    } else {
      NoCandidates(w, net, z, ids, sport, dport);
    }
  }

  ghost function ConnsOf(w: World, ids: seq<ConnId>): (conns: seq<Conn>)
    ensures |conns| == |ids| && forall i :: 0 <= i < |ids| ==> conns[i] == w.entries(ids[i]).conn
  {
    seq(|ids|, i requires 0 <= i < |ids| => w.entries(ids[i]).conn)
  }

  ghost function PastsOf(pasts: ConnId -> Past, ids: seq<ConnId>): (r: seq<Past>)
    ensures |r| == |ids| && forall i :: 0 <= i < |ids| ==> r[i] == pasts(ids[i])
  {
    seq(|ids|, i requires 0 <= i < |ids| => pasts(ids[i]))
  }

  lemma ZoneIsDumped(w: World, net: nat, z: U16, pasts: ConnId -> Past, ids: seq<ConnId>, messages: seq<Received>)
    requires ZonePasts(w, net, z, pasts) && ids == Everything(ZoneQuery(net, z, true), w) && |messages| == |ids|
    requires forall i :: 0 <= i < |ids| ==>
               var c := w.entries(ids[i]).conn; messages[i] == Received(c.info.orig.l3num, Exported(c))
    ensures DumpOf(messages, ConnsOf(w, ids)) && TrackedAs(ConnsOf(w, ids), PastsOf(pasts, ids))
  {
    hide Sendable, Run, Exported, ConnsOf, PastsOf, Everything, ZoneQuery;
    assert forall i :: 0 <= i < |ids| ==> ids[i] in ids;
  }

  lemma NoCandidates(w: World, net: nat, z: U16, ids: seq<ConnId>, sport: U16, dport: U16)
    requires Unique(w.buckets) && ids == Everything(ZoneQuery(net, z, true), w)
    requires var conns := ConnsOf(w, ids); forall i :: 0 <= i < |conns| ==> !Resettable(conns[i], sport, dport)
    ensures forall c :: !Candidate(w, net, z, c, sport, dport)
  {
    hide Everything, ZoneQuery, Unique, Candidate, Resettable, ConnsOf;
    forall c: ConnId
      ensures !Candidate(w, net, z, c, sport, dport)
    {
      ZoneCandidates(w, net, z, c, sport, dport);
      if c in ids {
        var i :| 0 <= i < |ids| && ids[i] == c;
        assert !Resettable(ConnsOf(w, ids)[i], sport, dport);
      }
    }
  }
}
