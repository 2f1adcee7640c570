/**
  What the messages about a connection contain: for every writer, the
  attributes it adds, as a value.
 */
module CtMessage {
  import opened Conntrack
  import opened Netlink

  const CTA_TUPLE_ORIG := 1
  const CTA_TUPLE_REPLY := 2
  const CTA_STATUS := 3
  const CTA_PROTOINFO := 4
  const CTA_HELP := 5
  const CTA_TIMEOUT := 7
  const CTA_MARK := 8
  const CTA_COUNTERS_ORIG := 9
  const CTA_COUNTERS_REPLY := 10
  const CTA_USE := 11
  const CTA_ID := 12
  const CTA_TUPLE_MASTER := 14
  const CTA_SEQ_ADJ_ORIG := 15
  const CTA_SEQ_ADJ_REPLY := 16
  const CTA_ZONE := 18
  const CTA_SECCTX := 19
  const CTA_TIMESTAMP := 20
  const CTA_LABELS := 22
  const CTA_SYNPROXY := 24
  const CTA_FILTER := 25
  const CTA_MAX := 26

  const CTA_TUPLE_IP := 1
  const CTA_TUPLE_PROTO := 2
  const CTA_TUPLE_ZONE := 3
  const CTA_TUPLE_MAX := 3

  const CTA_IP_V4_SRC := 1
  const CTA_IP_V4_DST := 2
  const CTA_IP_V6_SRC := 3
  const CTA_IP_V6_DST := 4
  const CTA_IP_MAX := 4

  const CTA_PROTO_NUM := 1
  const CTA_PROTO_SRC_PORT := 2
  const CTA_PROTO_DST_PORT := 3
  const CTA_PROTO_ICMP_ID := 4
  const CTA_PROTO_ICMP_TYPE := 5
  const CTA_PROTO_ICMP_CODE := 6
  const CTA_PROTO_ICMPV6_ID := 7
  const CTA_PROTO_ICMPV6_TYPE := 8
  const CTA_PROTO_ICMPV6_CODE := 9
  const CTA_PROTO_MAX := 9

  const CTA_PROTOINFO_TCP := 1
  const CTA_PROTOINFO_TCP_STATE := 1
  const CTA_PROTOINFO_TCP_WSCALE_ORIGINAL := 2
  const CTA_PROTOINFO_TCP_WSCALE_REPLY := 3
  const CTA_PROTOINFO_TCP_FLAGS_ORIGINAL := 4
  const CTA_PROTOINFO_TCP_FLAGS_REPLY := 5
  const CTA_PROTOINFO_TCP_SEQ_TRACK := 6

  /** The protocols whose tuples are a pair of ports: TCP, UDP, DCCP, GRE, SCTP, UDPLITE. */
  predicate HasPorts(p: Byte) {
    p == IPPROTO_TCP || p == IPPROTO_UDP || p == 33 || p == 47 || p == 132 || p == 136
  }

  /** Per-direction window state, as ip_ct_tcp_state has it. */
  datatype TcpSeen = TcpSeen(tdEnd: U32, tdMaxEnd: U32, tdMaxWin: U32, tdMaxAck: U32, tdScale: Byte, flags: Byte)

  const NO_SEEN := TcpSeen(0, 0, 0, 0, 0, 0)

  /** The part of `struct ip_ct_tcp` that is exported. */
  datatype TcpState = TcpState(seen0: TcpSeen, seen1: TcpSeen, state: Byte, lastDir: Byte, retrans: Byte,
                               lastIndex: Byte, lastSeq: U32, lastAck: U32, lastEnd: U32, lastWin: U16,
                               lastWscale: Byte, lastFlags: Byte)

  /** What the layer-4 protocol's own writer puts in its nest, normally and for a destroy event. */
  datatype Hook = Hook(normal: seq<Attr>, destroy: seq<Attr>)

  /** A security label and the length its module reports for it. */
  datatype SecCtx = SecCtx(text: seq<Byte>, reported: nat)

  datatype Counters = Counters(packets: seq<Byte>, bytes: seq<Byte>)
  datatype Acct = Acct(orig: Counters, reply: Counters)
  /** Start and stop, as eight bytes each; stop is absent while the connection lives. */
  datatype Tstamp = Tstamp(start: seq<Byte>, stop: Option<seq<Byte>>)
  datatype SeqAdj = SeqAdj(pos: U32, before: U32, after: U32)
  datatype SynProxy = SynProxy(isn: U32, its: U32, tsoff: U32)

  /**
    A connection as the writers see it. `master` is the original tuple of the master connection, and means
    something when the status says the connection was expected; `help` is the helper extension, which need
    not have a helper.
   */
  datatype Conn = Conn(info: Info, id: U32, use: U32, master: Tuple, timeout: U32, hook: Option<Hook>, tcp: TcpState,
                       secctx: Option<SecCtx>, acct: Option<Acct>, tstamp: Option<Tstamp>,
                       help: Option<Option<seq<Byte>>>,
                       labels: Option<seq<U32>>, seqadj: Option<(SeqAdj, SeqAdj)>, synproxy: Option<SynProxy>)

  predicate Status(c: Conn, bit: U32)
    requires bit > 0
  {
    HasBit(c.info.status, bit)
  }

  // ---------------------------------------------------------------- tuples and zones

  function L4Attrs(t: Tuple): seq<Attr> {
    if HasPorts(t.protonum) && t.l4src.SrcPort? && t.l4dst.DstPort? then
      [Leaf(CTA_PROTO_SRC_PORT, Be16(t.l4src.port)), Leaf(CTA_PROTO_DST_PORT, Be16(t.l4dst.port))]
    else if t.protonum == IPPROTO_ICMP && t.l4src.IcmpId? && t.l4dst.IcmpTypeCode? then
      [Leaf(CTA_PROTO_ICMP_ID, Be16(t.l4src.id)), Leaf(CTA_PROTO_ICMP_TYPE, [t.l4dst.itype]),
       Leaf(CTA_PROTO_ICMP_CODE, [t.l4dst.code])]
    else if t.protonum == IPPROTO_ICMPV6 && t.l4src.IcmpId? && t.l4dst.IcmpTypeCode? then
      [Leaf(CTA_PROTO_ICMPV6_ID, Be16(t.l4src.id)), Leaf(CTA_PROTO_ICMPV6_TYPE, [t.l4dst.itype]),
       Leaf(CTA_PROTO_ICMPV6_CODE, [t.l4dst.code])]
    else []
  }

  function ProtoAttr(t: Tuple): Attr {
    Nest(CTA_TUPLE_PROTO, [Leaf(CTA_PROTO_NUM, [t.protonum])] + L4Attrs(t))
  }

  function IpAttr(t: Tuple): Attr {
    Nest(CTA_TUPLE_IP,
         if t.l3num == NFPROTO_IPV4 && t.src.V4? && t.dst.V4? then
           [Leaf(CTA_IP_V4_SRC, t.src.bytes), Leaf(CTA_IP_V4_DST, t.dst.bytes)]
         else if t.l3num == NFPROTO_IPV6 && t.src.V6? && t.dst.V6? then
           [Leaf(CTA_IP_V6_SRC, t.src.bytes), Leaf(CTA_IP_V6_DST, t.dst.bytes)]
         else [])
  }

  function TupleAttrs(t: Tuple): seq<Attr> {
    [IpAttr(t), ProtoAttr(t)]
  }

  /** The zone is written at most once: where its direction says. */
  function ZoneAttrs(kind: nat, z: Zone, dir: Byte): seq<Attr> {
    if z.id == NF_CT_DEFAULT_ZONE_ID || z.dir != dir then [] else [Leaf(kind, Be16(z.id))]
  }

  // ---------------------------------------------------------------- the parts of a message

  function U32Attr(kind: nat, n: U32): Attr {
    Leaf(kind, Be32(n))
  }

  function StatusAttrs(c: Conn): seq<Attr> { [U32Attr(CTA_STATUS, c.info.status)] }

  function IdAttrs(c: Conn): seq<Attr> { [U32Attr(CTA_ID, c.id)] }

  function UseAttrs(c: Conn): seq<Attr> { [U32Attr(CTA_USE, c.use)] }

  function TimeoutAttrs(c: Conn, skipZero: bool): seq<Attr> {
    if skipZero && c.timeout == 0 then [] else [U32Attr(CTA_TIMEOUT, c.timeout)]
  }

  function MarkAttrs(c: Conn, always: bool): seq<Attr> {
    if c.info.mark == 0 && !always then [] else [U32Attr(CTA_MARK, c.info.mark)]
  }

  function SecctxAttrs(c: Conn): seq<Attr> {
    match c.secctx
    case None => []
    case Some(s) => [Nest(CTA_SECCTX, [Leaf(1, s.text + [0])])]
  }

  function MasterAttrs(c: Conn): seq<Attr> {
    if Status(c, IPS_EXPECTED) then [Nest(CTA_TUPLE_MASTER, TupleAttrs(c.master))] else []
  }

  function CounterAttr(kind: nat, n: Counters): Attr {
    Nest(kind, [Leaf(1, n.packets), Leaf(2, n.bytes)])
  }

  function AcctAttrs(c: Conn): seq<Attr> {
    match c.acct
    case None => []
    case Some(a) => [CounterAttr(CTA_COUNTERS_ORIG, a.orig), CounterAttr(CTA_COUNTERS_REPLY, a.reply)]
  }

  function StampAttrs(t: Tstamp): seq<Attr> {
    [Leaf(1, t.start)] + match t.stop case None => [] case Some(stop) => [Leaf(2, stop)]
  }

  function TstampAttrs(c: Conn): seq<Attr> {
    match c.tstamp
    case None => []
    case Some(t) => [Nest(CTA_TIMESTAMP, StampAttrs(t))]
  }

  function HelpAttrs(c: Conn): seq<Attr> {
    match c.help
    case Some(Some(name)) => [Nest(CTA_HELP, [Leaf(1, name + [0])])]
    case _ => []
  }

  function LabelBytes(words: seq<U32>): seq<Byte> {
    if words == [] then [] else Le32(words[0]) + LabelBytes(words[1..])
  }

  lemma {:induction false} LabelLength(words: seq<U32>)
    ensures |LabelBytes(words)| == 4 * |words|
    decreases |words|
  {
    if words != [] {
      LabelLength(words[1..]);
    }
  }

  function LabelAttrs(c: Conn): seq<Attr> {
    match c.labels
    case None => []
    case Some(words) =>
      if forall i :: 0 <= i < |words| ==> words[i] == 0 then [] else [Leaf(CTA_LABELS, LabelBytes(words))]
  }

  function SeqAdjAttr(kind: nat, s: SeqAdj): Attr {
    Nest(kind, [U32Attr(1, s.pos), U32Attr(2, s.before), U32Attr(3, s.after)])
  }

  function SeqAdjAttrs(c: Conn): seq<Attr> {
    match c.seqadj
    case None => []
    case Some((o, r)) =>
      if !Status(c, IPS_SEQ_ADJUST) then [] else [SeqAdjAttr(CTA_SEQ_ADJ_ORIG, o), SeqAdjAttr(CTA_SEQ_ADJ_REPLY, r)]
  }

  function SynProxyAttrs(c: Conn): seq<Attr> {
    match c.synproxy
    case None => []
    case Some(s) => [Nest(CTA_SYNPROXY, [U32Attr(1, s.isn), U32Attr(2, s.its), U32Attr(3, s.tsoff)])]
  }

  // ---------------------------------------------------------------- protocol information

  function Le32(n: U32): (b: seq<Byte>)
    ensures |b| == 4
  {
    Le16(n % 0x1_0000) + Le16(n / 0x1_0000)
  }

  lemma Le32Reads(n: U32, rest: seq<Byte>)
    ensures GetLe32(Le32(n) + rest) == n
  {
  }

  lemma Le16Reads(n: U16, rest: seq<Byte>)
    ensures GetLe16(Le16(n) + rest) == n
  {
  }

  function SeenBytes(s: TcpSeen): (b: seq<Byte>)
    ensures |b| == 20
  {
    Le32(s.tdEnd) + Le32(s.tdMaxEnd) + Le32(s.tdMaxWin) + Le32(s.tdMaxAck) + [s.tdScale, s.flags] + [0, 0]
  }

  /** The part of the record after the two windows. */
  function TailBytes(t: TcpState): (b: seq<Byte>)
    ensures |b| == 24
  {
    [t.state, t.lastDir, t.retrans, t.lastIndex] + Le32(t.lastSeq) + Le32(t.lastAck) + Le32(t.lastEnd) + Le16(t.lastWin)
    + [t.lastWscale, t.lastFlags] + [0, 0, 0, 0]
  }

  /** `struct ip_ct_tcp_vgw` in memory: 64 bytes. */
  function SeqTrackBytes(t: TcpState): (b: seq<Byte>)
    ensures |b| == 64
  {
    SeenBytes(t.seen0) + SeenBytes(t.seen1) + TailBytes(t)
  }

  function TcpAttrs(t: TcpState, destroy: bool): seq<Attr> {
    [Leaf(CTA_PROTOINFO_TCP_STATE, [t.state])] +
    if destroy then [] else
      [Leaf(CTA_PROTOINFO_TCP_WSCALE_ORIGINAL, [t.seen0.tdScale]),
       Leaf(CTA_PROTOINFO_TCP_WSCALE_REPLY, [t.seen1.tdScale]),
       Leaf(CTA_PROTOINFO_TCP_FLAGS_ORIGINAL, [t.seen0.flags, 0]),
       Leaf(CTA_PROTOINFO_TCP_FLAGS_REPLY, [t.seen1.flags, 0]),
       Leaf(CTA_PROTOINFO_TCP_SEQ_TRACK, SeqTrackBytes(t))]
  }

  /** Whether a message carries the tracker's own TCP nest: a filtered dump, with the export switched on. */
  datatype Flags = Flags(filtered: bool, exportTcp: bool)

  predicate OwnTcp(c: Conn, f: Flags) {
    f.filtered && f.exportTcp && c.info.orig.protonum == IPPROTO_TCP
  }

  function ProtoInfoAttrs(c: Conn, destroy: bool, f: Flags): seq<Attr> {
    if OwnTcp(c, f) then [Nest(CTA_PROTOINFO, [Nest(CTA_PROTOINFO_TCP, TcpAttrs(c.tcp, destroy))])]
    else match c.hook
      case None => []
      case Some(h) => [Nest(CTA_PROTOINFO, if destroy then h.destroy else h.normal)]
  }

  // ---------------------------------------------------------------- whole messages

  function TuplesAndZone(c: Conn): seq<Attr> {
    [Nest(CTA_TUPLE_ORIG, TupleAttrs(c.info.orig) + ZoneAttrs(CTA_TUPLE_ZONE, c.info.zone, NF_CT_ZONE_DIR_ORIG)),
     Nest(CTA_TUPLE_REPLY, TupleAttrs(c.info.reply) + ZoneAttrs(CTA_TUPLE_ZONE, c.info.zone, NF_CT_ZONE_DIR_REPL))]
    + ZoneAttrs(CTA_ZONE, c.info.zone, NF_CT_DEFAULT_ZONE_DIR)
  }

  function InfoAttrs(c: Conn, f: Flags): seq<Attr> {
    StatusAttrs(c) + MarkAttrs(c, true) + SecctxAttrs(c) + IdAttrs(c) + UseAttrs(c) + MasterAttrs(c)
    + if Status(c, IPS_OFFLOAD) then [] else TimeoutAttrs(c, false) + ProtoInfoAttrs(c, false, f)
  }

  function ExtAttrs(c: Conn): seq<Attr> {
    AcctAttrs(c) + TstampAttrs(c) + HelpAttrs(c) + LabelAttrs(c) + SeqAdjAttrs(c) + SynProxyAttrs(c)
  }

  /** The attributes of a dump message. */
  function DumpAttrs(c: Conn, ext: bool, f: Flags): seq<Attr> {
    TuplesAndZone(c) + InfoAttrs(c, f) + if ext then ExtAttrs(c) else []
  }

  const NFNL_MSG_CT_NEW: U16 := 0x100
  const NFNL_MSG_CT_DELETE: U16 := 0x102
  const NLM_F_MULTI: U16 := 0x002
  const NLM_F_DUMP_FILTERED: U16 := 0x020
  const NLM_F_CREATE_EXCL: U16 := 0x600

  /** The head of a dump message. */
  function DumpHead(c: Conn, portid: U32, seqno: U32, f: Flags): Head {
    Head(NFNL_MSG_CT_NEW, (if f.filtered then NLM_F_DUMP_FILTERED else 0) + (if portid != 0 then NLM_F_MULTI else 0),
         seqno, portid, c.info.orig.l3num)
  }

  const NLMSG_HDRLEN := 16
  const NFGENMSG_LEN := 4

  /** The fixed fields in front of the attributes, after the length. */
  datatype Head = Head(kind: U16, flags: U16, seqno: U32, portid: U32, family: Byte)

  /** A message: its length, the other header fields, the netfilter header, and the attributes. */
  function Message(h: Head, attrs: seq<Attr>): seq<Byte> {
    var body := EncodeAll(attrs);
    HeadBytes(h, NLMSG_HDRLEN + NFGENMSG_LEN + |body|) + body
  }

  function HeadBytes(h: Head, len: nat): (b: seq<Byte>)
    ensures |b| == NLMSG_HDRLEN + NFGENMSG_LEN
  {
    Le32(len % 0x1_0000_0000)
    + (Le16(h.kind) + (Le16(h.flags) + (Le32(h.seqno) + (Le32(h.portid) + [h.family, 0, 0, 0]))))
  }
}
