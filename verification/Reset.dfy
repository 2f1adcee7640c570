/**
  Resetting a connection from its export: the client's decoding of the
  tracker's record, the choice of the flow, and the two resets it makes of it.
 */
module Reset {
  import opened Conntrack
  import opened Netlink
  import opened CtMessage
  import opened CtParse
  import opened RoundTrip

  // ---------------------------------------------------------------- the record

  const SEEN_LEN := 20
  const SEQ_TRACK_LEN := 64

  const NO_STATE := TcpState(NO_SEEN, NO_SEEN, 0, 0, 0, 0, 0, 0, 0, 0, 0, 0)

  function DecodeSeen(b: seq<Byte>): TcpSeen
    requires |b| >= SEEN_LEN
  {
    TcpSeen(GetLe32(b), GetLe32(b[4..]), GetLe32(b[8..]), GetLe32(b[12..]), b[16], b[17])
  }

  function DecodeSeqTrack(b: seq<Byte>): TcpState
    requires |b| == SEQ_TRACK_LEN
  {
    TcpState(DecodeSeen(b), DecodeSeen(b[20..]), b[40], b[41], b[42], b[43], GetLe32(b[44..]), GetLe32(b[48..]),
             GetLe32(b[52..]), GetLe16(b[56..]), b[58], b[59])
  }

  method UnmarshalSeen(data: seq<Byte>) returns (seen: TcpSeen)
    requires |data| >= SEEN_LEN
    ensures seen == DecodeSeen(data)
  {
    seen := NO_SEEN;
    var n := 0;
    seen := seen.(tdEnd := GetLe32(data[n..]));
    n := n + 4;
    seen := seen.(tdMaxEnd := GetLe32(data[n..]));
    n := n + 4;
    seen := seen.(tdMaxWin := GetLe32(data[n..]));
    n := n + 4;
    seen := seen.(tdMaxAck := GetLe32(data[n..]));
    n := n + 4;
    seen := seen.(tdScale := data[n]);
    n := n + 1;
    seen := seen.(flags := data[n]);
    assert data[0..] == data;
  }

  /** The record, or nothing if it does not have its length. */
  method UnmarshalSeqTrack(data: seq<Byte>) returns (r: Option<TcpState>)
    ensures r == if |data| == SEQ_TRACK_LEN then Some(DecodeSeqTrack(data)) else None
  {
    if |data| != SEQ_TRACK_LEN {
      return None;
    }
    hide DecodeSeen, GetLe32, GetLe16;
    var t := NO_STATE;
    var n := 0;
    assert data[n..] == data;
    var seen := UnmarshalSeen(data[n..]);
    t := t.(seen0 := seen);
    n := n + SEEN_LEN;
    seen := UnmarshalSeen(data[n..]);
    t := t.(seen1 := seen);
    n := n + SEEN_LEN;
    t := t.(state := data[n]);
    n := n + 1;
    t := t.(lastDir := data[n]);
    n := n + 1;
    t := t.(retrans := data[n]);
    n := n + 1;
    t := t.(lastIndex := data[n]);
    n := n + 1;
    t := t.(lastSeq := GetLe32(data[n..]));
    n := n + 4;
    t := t.(lastAck := GetLe32(data[n..]));
    n := n + 4;
    t := t.(lastEnd := GetLe32(data[n..]));
    n := n + 4;
    t := t.(lastWin := GetLe16(data[n..]));
    n := n + 2;
    t := t.(lastWscale := data[n]);
    n := n + 1;
    t := t.(lastFlags := data[n]);
    assert n == 59 && t == DecodeSeqTrack(data);
    return Some(t);
  }

  /** Reading past a prefix of what is left after `i` bytes. */
  lemma Past(b: seq<Byte>, i: nat, x: seq<Byte>, rest: seq<Byte>)
    requires i <= |b| && b[i..] == x + rest
    ensures i + |x| <= |b| && b[i + |x|..] == rest
  {
    assert b[i + |x|..] == b[i..][|x|..];
  }

  lemma SeenReads(s: TcpSeen, rest: seq<Byte>)
    ensures DecodeSeen(SeenBytes(s) + rest) == s
  {
    var b := SeenBytes(s) + rest;
    var r4 := [s.tdScale, s.flags] + [0, 0] + rest;
    var r3 := Le32(s.tdMaxAck) + r4;
    var r2 := Le32(s.tdMaxWin) + r3;
    var r1 := Le32(s.tdMaxEnd) + r2;
    Le32Reads(s.tdEnd, r1);
    Le32Reads(s.tdMaxEnd, r2);
    Le32Reads(s.tdMaxWin, r3);
    Le32Reads(s.tdMaxAck, r4);
    hide Le32, GetLe32;
    assert b == Le32(s.tdEnd) + r1 && b[0..] == b;
    Past(b, 0, Le32(s.tdEnd), r1);
    Past(b, 4, Le32(s.tdMaxEnd), r2);
    Past(b, 8, Le32(s.tdMaxWin), r3);
    Past(b, 12, Le32(s.tdMaxAck), r4);
    assert b[16] == b[16..][0] && b[17] == b[16..][1];
  }

  lemma TailReads(t: TcpState)
    ensures var b := TailBytes(t);
            && |b| == 24 && b[..4] == [t.state, t.lastDir, t.retrans, t.lastIndex]
            && GetLe32(b[4..]) == t.lastSeq && GetLe32(b[8..]) == t.lastAck && GetLe32(b[12..]) == t.lastEnd
            && GetLe16(b[16..]) == t.lastWin && b[18] == t.lastWscale && b[19] == t.lastFlags
  {
    var b := TailBytes(t);
    var r4 := [t.lastWscale, t.lastFlags] + [0, 0, 0, 0];
    var r3 := Le16(t.lastWin) + r4;
    var r2 := Le32(t.lastEnd) + r3;
    var r1 := Le32(t.lastAck) + r2;
    Le32Reads(t.lastSeq, r1);
    Le32Reads(t.lastAck, r2);
    Le32Reads(t.lastEnd, r3);
    Le16Reads(t.lastWin, r4);
    hide Le32, Le16, GetLe32, GetLe16;
    var h := [t.state, t.lastDir, t.retrans, t.lastIndex];
    assert b == h + (Le32(t.lastSeq) + r1) && b[0..] == b;
    Past(b, 0, h, Le32(t.lastSeq) + r1);
    Past(b, 4, Le32(t.lastSeq), r1);
    Past(b, 8, Le32(t.lastAck), r2);
    Past(b, 12, Le32(t.lastEnd), r3);
    Past(b, 16, Le16(t.lastWin), r4);
    assert b[18] == b[18..][0] && b[19] == b[18..][1];
  }

  /** The client decodes exactly what the kernel wrote. */
  lemma RecordRoundTrip(t: TcpState)
    ensures DecodeSeqTrack(SeqTrackBytes(t)) == t
  {
    var b := SeqTrackBytes(t);
    var tail := TailBytes(t);
    SeenReads(t.seen0, SeenBytes(t.seen1) + tail);
    SeenReads(t.seen1, tail);
    TailReads(t);
    hide SeenBytes, DecodeSeen, TailBytes, GetLe32, GetLe16;
    assert b == SeenBytes(t.seen0) + (SeenBytes(t.seen1) + tail);
    hide SeqTrackBytes;
    assert b[0..] == b;
    Past(b, 0, SeenBytes(t.seen0), SeenBytes(t.seen1) + tail);
    Past(b, 20, SeenBytes(t.seen1), tail);
    assert b[44..] == b[40..][4..] && b[48..] == b[40..][8..] && b[52..] == b[40..][12..] && b[56..] == b[40..][16..];
    assert b[40] == tail[0] && b[41] == tail[1] && b[42] == tail[2] && b[43] == tail[3] && b[58] == tail[18] &&
           b[59] == tail[19];
    assert tail[..4][0] == tail[0] && tail[..4][1] == tail[1] && tail[..4][2] == tail[2] && tail[..4][3] == tail[3];
  }

  // ---------------------------------------------------------------- from a message to a flow

  const ANY_KIND := 0x3fff

  /** The TCP part of the protocol information in a message, if it has one. */
  function TcpPart(message: seq<Byte>): Option<seq<Byte>> {
    var m := Parse(message, ANY_KIND);
    if CTA_PROTOINFO !in m then None
    else
      var p := Parse(m[CTA_PROTOINFO], ANY_KIND);
      if CTA_PROTOINFO_TCP !in p then None
      else Some(p[CTA_PROTOINFO_TCP])
  }

  /** The tracker's record in a message, if it has one. */
  function SeqTrackOf(message: seq<Byte>): Option<TcpState> {
    match TcpPart(message)
    case None => None
    case Some(tcp) =>
      var t := Parse(tcp, ANY_KIND);
      if CTA_PROTOINFO_TCP_SEQ_TRACK in t && |t[CTA_PROTOINFO_TCP_SEQ_TRACK]| == SEQ_TRACK_LEN
      then Some(DecodeSeqTrack(t[CTA_PROTOINFO_TCP_SEQ_TRACK])) else None
  }

  /** What the client knows of a connection: its original tuple, and what the TCP part of the message holds. */
  datatype Flow = Flow(orig: Tuple, hasTcp: bool, seqTrack: Option<TcpState>)

  function ReadFlow(message: seq<Byte>, l3num: Byte): Option<Flow> {
    match ParseNew(message, l3num)
    case Err(_) => None
    case Ok((orig, _, _)) => Some(Flow(orig, TcpPart(message).Some?, SeqTrackOf(message)))
  }

  predicate KindFree(attrs: seq<Attr>, k: nat) {
    forall a :: a in attrs ==> a.kind != k
  }

  lemma ExtKinds(c: Conn)
    ensures KindFree(ExtAttrs(c), CTA_PROTOINFO)
  {
    assert KindFree(AcctAttrs(c), CTA_PROTOINFO) && KindFree(TstampAttrs(c), CTA_PROTOINFO) &&
           KindFree(HelpAttrs(c), CTA_PROTOINFO);
    assert KindFree(LabelAttrs(c), CTA_PROTOINFO) && KindFree(SeqAdjAttrs(c), CTA_PROTOINFO) &&
           KindFree(SynProxyAttrs(c), CTA_PROTOINFO);
    hide AcctAttrs, TstampAttrs, HelpAttrs, LabelAttrs, SeqAdjAttrs, SynProxyAttrs;
  }

  /** The attribute of a kind that does not occur later is the one that is read. */
  lemma LastRead(pre: seq<Attr>, a: Attr, post: seq<Attr>)
    requires forall x :: x in pre + [a] + post ==> Sized(x)
    requires KindFree(post, a.kind)
    ensures var tb := Parse(EncodeAll(pre + [a] + post), ANY_KIND); a.kind in tb && tb[a.kind] == Payload(a)
  {
    assert a in pre + [a] + post;
    ParseEncoded(pre + [a] + post, ANY_KIND);
    TableConcat(pre + [a], post, ANY_KIND);
    TableConcat(pre, [a], ANY_KIND);
    TableKinds(post, ANY_KIND, a.kind);
    assert [a][1..] == [];
    hide Payload, Parse, EncodeAll;
  }

  lemma OnlyRead(a: Attr)
    requires Sized(a)
    ensures var tb := Parse(EncodeAll([a]), ANY_KIND); a.kind in tb && tb[a.kind] == Payload(a)
  {
    assert [] + [a] + [] == [a];
    LastRead([], a, []);
  }

  lemma {:induction false} KidsSized(a: Attr)
    requires a.Nest? && Sized(a) && forall x :: x in a.kids ==> 0 < x.kind < 0x4000
    ensures forall x :: x in a.kids ==> Sized(x)
  {
    EncodeAllSize(a.kids);
    MembersSized(a.kids);
  }

  lemma TcpNestReads(t: TcpState)
    ensures var tb := Parse(EncodeAll(TcpAttrs(t, false)), ANY_KIND);
            CTA_PROTOINFO_TCP_SEQ_TRACK in tb && tb[CTA_PROTOINFO_TCP_SEQ_TRACK] == SeqTrackBytes(t)
  {
    var attrs := TcpAttrs(t, false);
    assert attrs == attrs[..5] + [attrs[5]] + [];
    LastRead(attrs[..5], attrs[5], []);
  }

  /** A dump message that carries the record: what is in front of it and behind it. */
  lemma DumpSplit(c: Conn, ext: bool, f: Flags) returns (pre: seq<Attr>, post: seq<Attr>)
    requires OwnTcp(c, f) && !Status(c, IPS_OFFLOAD)
    ensures DumpAttrs(c, ext, f) ==
            pre + [Nest(CTA_PROTOINFO, [Nest(CTA_PROTOINFO_TCP, TcpAttrs(c.tcp, false))])] + post
    ensures KindFree(post, CTA_PROTOINFO)
  {
    ExtKinds(c);
    hide ExtAttrs, TcpAttrs, TuplesAndZone, StatusAttrs, MarkAttrs, SecctxAttrs, IdAttrs, UseAttrs, MasterAttrs,
         TimeoutAttrs, Status, OwnTcp;
    var info := StatusAttrs(c) + MarkAttrs(c, true) + SecctxAttrs(c) + IdAttrs(c) + UseAttrs(c) + MasterAttrs(c);
    pre := TuplesAndZone(c) + (info + TimeoutAttrs(c, false));
    post := if ext then ExtAttrs(c) else [];
    var p := [Nest(CTA_PROTOINFO, [Nest(CTA_PROTOINFO_TCP, TcpAttrs(c.tcp, false))])];
    assert ProtoInfoAttrs(c, false, f) == p;
    assert InfoAttrs(c, f) == (info + TimeoutAttrs(c, false)) + p;
    hide InfoAttrs, ProtoInfoAttrs;
    assert DumpAttrs(c, ext, f) == TuplesAndZone(c) + InfoAttrs(c, f) + post;
  }

  function TcpNest(t: TcpState): Attr {
    Nest(CTA_PROTOINFO, [Nest(CTA_PROTOINFO_TCP, TcpAttrs(t, false))])
  }

  lemma NestedRead(pre: seq<Attr>, t: TcpState, post: seq<Attr>)
    requires (forall x :: x in pre + [TcpNest(t)] + post ==> Sized(x)) && KindFree(post, CTA_PROTOINFO)
    ensures SeqTrackOf(EncodeAll(pre + [TcpNest(t)] + post)) == Some(t)
  {
    var outer := TcpNest(t);
    var inner := outer.kids[0];
    assert Payload(outer) == EncodeAll([inner]) && Payload(inner) == EncodeAll(TcpAttrs(t, false));
    LastRead(pre, outer, post);
    assert outer in pre + [outer] + post;
    KidsSized(outer);
    assert inner in outer.kids;
    OnlyRead(inner);
    TcpNestReads(t);
    RecordRoundTrip(t);
    hide TcpAttrs, SeqTrackBytes, DecodeSeqTrack, Parse, EncodeAll, Payload;
  }

  /** Where each field is in the record. */
  lemma RecordLayout(t: TcpState)
    ensures var b := SeqTrackBytes(t);
            && |b| == 64
            && GetLe32(b) == t.seen0.tdEnd && GetLe32(b[4..]) == t.seen0.tdMaxEnd && GetLe32(b[8..]) == t.seen0.tdMaxWin
            && GetLe32(b[12..]) == t.seen0.tdMaxAck && b[16] == t.seen0.tdScale && b[17] == t.seen0.flags
            && GetLe32(b[20..]) == t.seen1.tdEnd
            && b[40] == t.state && b[41] == t.lastDir && b[42] == t.retrans && b[43] == t.lastIndex
            && GetLe32(b[44..]) == t.lastSeq && GetLe32(b[48..]) == t.lastAck && GetLe32(b[52..]) == t.lastEnd
            && GetLe16(b[56..]) == t.lastWin && b[58] == t.lastWscale && b[59] == t.lastFlags
  {
    RecordRoundTrip(t);
    hide SeqTrackBytes, GetLe32, GetLe16;
  }

  /** The client reads from a filtered dump the record the kernel has. */
  lemma ExportReads(c: Conn, ext: bool, f: Flags)
    requires Dumpable(c) && OwnTcp(c, f) && !Status(c, IPS_OFFLOAD) && SizeAll(DumpAttrs(c, ext, f)) < 0x1_0000
    ensures SeqTrackOf(EncodeAll(DumpAttrs(c, ext, f))) == Some(c.tcp)
  {
    var pre, post := DumpSplit(c, ext, f);
    DumpSized(c, ext, f);
    assert TcpNest(c.tcp) == Nest(CTA_PROTOINFO, [Nest(CTA_PROTOINFO_TCP, TcpAttrs(c.tcp, false))]);
    hide DumpAttrs, TcpNest, SeqTrackOf, EncodeAll, Sized, KindFree, TcpAttrs;
    NestedRead(pre, c.tcp, post);
  }

  lemma DumpSized(c: Conn, ext: bool, f: Flags)
    requires Dumpable(c) && SizeAll(DumpAttrs(c, ext, f)) < 0x1_0000
    ensures forall x :: x in DumpAttrs(c, ext, f) ==> Sized(x)
  {
    DumpIsRest(c, ext, f);
    TuplesTable(c, DumpRest(c, ext, f));
    hide DumpAttrs, TuplesAndZone, DumpRest, SizeAll, Sized, Obeys, TableOf, EncodeAll;
  }

  // ---------------------------------------------------------------- the resets

  datatype TcpInfo = TcpInfo(srcMac: seq<Byte>, dstMac: seq<Byte>, srcIp: Addr, dstIp: Addr, srcPort: U16, dstPort: U16,
                             seqno: U32, ackno: U32)

  function SourcePort(t: Tuple): U16 {
    if t.l4src.SrcPort? then t.l4src.port else 0
  }

  function DestinationPort(t: Tuple): U16 {
    if t.l4dst.DstPort? then t.l4dst.port else 0
  }

  /** The flows the loop stops at. */
  predicate Usable(f: Flow, sport: U16, dport: U16) {
    && f.hasTcp && f.orig.protonum == IPPROTO_TCP
    && (sport == 0 || SourcePort(f.orig) == sport) && (dport == 0 || DestinationPort(f.orig) == dport)
    && f.seqTrack.Some?
  }

  /** A reset to the source of the original direction, as if from its destination. */
  function ResetFor(f: Flow): TcpInfo
    requires f.seqTrack.Some?
  {
    TcpInfo([], [], f.orig.dst, f.orig.src, DestinationPort(f.orig), SourcePort(f.orig), f.seqTrack.value.lastAck,
            f.seqTrack.value.lastSeq)
  }

  /** GetTcpInfoFromConntrack: the first usable flow. */
  method GetTcpInfo(cts: seq<Flow>, sport: U16, dport: U16) returns (info: Option<TcpInfo>)
    ensures info.None? <==> forall i :: 0 <= i < |cts| ==> !Usable(cts[i], sport, dport)
    ensures info.Some? ==> exists i :: 0 <= i < |cts| && Usable(cts[i], sport, dport) && info.value == ResetFor(cts[i])
                                       && forall j :: 0 <= j < i ==> !Usable(cts[j], sport, dport)
  {
    info := None;
    var i := 0;
    while i < |cts|
      invariant 0 <= i <= |cts| && info == None
      invariant forall j :: 0 <= j < i ==> !Usable(cts[j], sport, dport)
    {
      var ct := cts[i];
      i := i + 1;
      if !ct.hasTcp {
        continue;
      } else if ct.orig.protonum != 6 {
        continue;
      } else if sport != 0 && SourcePort(ct.orig) != sport {
        continue;
      } else if dport != 0 && DestinationPort(ct.orig) != dport {
        continue;
      }
      if ct.seqTrack.Some? {
        var tuple := ct.orig;
        var seqTrk := ct.seqTrack.value;
        info := Some(TcpInfo([], [], tuple.dst, tuple.src, DestinationPort(tuple), SourcePort(tuple), seqTrk.lastAck,
                             seqTrk.lastSeq));
        assert Usable(cts[i - 1], sport, dport) && info.value == ResetFor(cts[i - 1]);
        break;
      }
    }
  }

  /** The second reset: both endpoints and both numbers exchanged. */
  function Mirror(t: TcpInfo): TcpInfo {
    TcpInfo(t.dstMac, t.srcMac, t.dstIp, t.srcIp, t.dstPort, t.srcPort, t.ackno, t.seqno)
  }

  method BuildMirror(t: TcpInfo) returns (m: TcpInfo)
    ensures m == Mirror(t) && Mirror(m) == t
    ensures m.srcMac == t.dstMac && m.srcIp == t.dstIp && m.srcPort == t.dstPort && m.seqno == t.ackno
  {
    m := TcpInfo([], [], NoAddr, NoAddr, 0, 0, 0, 0);
    m := m.(srcMac := t.dstMac);
    m := m.(dstMac := t.srcMac);
    m := m.(srcIp := t.dstIp);
    m := m.(dstIp := t.srcIp);
    m := m.(srcPort := t.dstPort);
    m := m.(dstPort := t.srcPort);
    m := m.(seqno := t.ackno);
    m := m.(ackno := t.seqno);
  }
}
