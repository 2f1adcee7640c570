/**
  Event messages are written into a buffer whose size was computed beforehand
  by a function that does not look at the attributes one by one. It leaves out
  one nest altogether and counts others twice; this module shows that the sum
  is nevertheless always enough.
 */
module EventSize {
  import opened Conntrack
  import opened Netlink
  import opened CtMessage
  import opened Tracker
  import opened Skb

  /** The bits of the event mask that the builder looks at. */
  datatype Events = Events(destroy: bool, created: bool, related: bool, protoinfo: bool, helper: bool, secmark: bool,
                           labels: bool, seqadj: bool, synproxy: bool, mark: bool)

  const IPCT_NEW := 0
  const IPCT_RELATED := 1
  const IPCT_DESTROY := 2
  const IPCT_PROTOINFO := 5
  const IPCT_HELPER := 6
  const IPCT_MARK := 7
  const IPCT_SEQADJ := 8
  const IPCT_SECMARK := 9
  const IPCT_LABEL := 10
  const IPCT_SYNPROXY := 11

  function EventsOf(mask: U32): Events {
    Events(Bit(mask, IPCT_DESTROY), Bit(mask, IPCT_NEW), Bit(mask, IPCT_RELATED), Bit(mask, IPCT_PROTOINFO),
           Bit(mask, IPCT_HELPER), Bit(mask, IPCT_SECMARK), Bit(mask, IPCT_LABEL), Bit(mask, IPCT_SEQADJ),
           Bit(mask, IPCT_SYNPROXY), Bit(mask, IPCT_MARK))
  }

  const NFNLGRP_CONNTRACK_NEW := 1
  const NFNLGRP_CONNTRACK_UPDATE := 2
  const NFNLGRP_CONNTRACK_DESTROY := 3

  /** The group of listeners an event is for. */
  function GroupOf(e: Events): nat {
    if e.destroy then NFNLGRP_CONNTRACK_DESTROY
    else if e.created || e.related then NFNLGRP_CONNTRACK_NEW
    else NFNLGRP_CONNTRACK_UPDATE
  }

  // ---------------------------------------------------------------- the prediction

  /** nlattr_tuple_size of a protocol: two ports, an ICMP identifier with type and code, or no hook. */
  function L4TupleSize(p: Byte): nat {
    if HasPorts(p) then 2 * TotalSize(2)
    else if p == IPPROTO_ICMP || p == IPPROTO_ICMPV6 then TotalSize(2) + 2 * TotalSize(1)
    else 0
  }

  /** nla_policy_len over the four address attributes: both families are counted. */
  function IpPolicyLen(): nat {
    2 * TotalSize(4) + 2 * TotalSize(16)
  }

  /** ctnetlink_proto_size; `infoSize` is what the protocol declares for its own nest. */
  function ProtoSize(c: Conn, infoSize: nat): nat {
    3 * IpPolicyLen() + infoSize + 3 * L4TupleSize(c.info.orig.protonum)
  }

  function AcctSize(c: Conn): nat {
    if c.acct.None? then 0 else 2 * TotalSize(0) + 2 * TotalSize(8) + 2 * TotalSize(8)
  }

  function TstampSize(c: Conn): nat {
    if c.tstamp.None? then 0 else TotalSize(0) + 2 * TotalSize(8)
  }

  function SecctxSize(c: Conn): nat {
    match c.secctx case None => 0 case Some(s) => TotalSize(0) + TotalSize(s.reported)
  }

  function LabelSize(c: Conn): nat {
    if c.labels.None? then 0 else TotalSize(16)
  }

  const NF_CT_HELPER_NAME_LEN := 16

  /** ctnetlink_nlmsg_size. */
  function NlmsgSize(c: Conn, infoSize: nat): nat {
    Align4(NFGENMSG_LEN)
    + 3 * TotalSize(0) + 3 * TotalSize(0) + 3 * TotalSize(0) + 3 * TotalSize(1)
    + TotalSize(4) + TotalSize(4)
    + AcctSize(c) + TstampSize(c)
    + TotalSize(4) + TotalSize(0) + TotalSize(0) + TotalSize(NF_CT_HELPER_NAME_LEN)
    + SecctxSize(c)
    + 2 * TotalSize(0) + 6 * TotalSize(4)
    + TotalSize(4) + TotalSize(2)
    + ProtoSize(c, infoSize) + LabelSize(c)
  }

  // ---------------------------------------------------------------- what is written

  function When(b: bool, attrs: seq<Attr>): seq<Attr> {
    if b then attrs else []
  }

  const NO_FLAGS := Flags(false, false)

  function DestroyAttrs(c: Conn): seq<Attr> {
    TimeoutAttrs(c, true) + AcctAttrs(c) + TstampAttrs(c) + ProtoInfoAttrs(c, true, NO_FLAGS)
  }

  function UpdateAttrs(c: Conn, e: Events, secmarked: bool): seq<Attr> {
    FirstUpdates(c, e, secmarked) + LaterUpdates(c, e)
  }

  function FirstUpdates(c: Conn, e: Events, secmarked: bool): seq<Attr> {
    TimeoutAttrs(c, false)
    + When(e.protoinfo, ProtoInfoAttrs(c, false, NO_FLAGS))
    + When(e.helper || c.help.Some?, HelpAttrs(c))
    + When(e.secmark || secmarked, SecctxAttrs(c))
  }

  function LaterUpdates(c: Conn, e: Events): seq<Attr> {
    When(e.labels, LabelAttrs(c))
    + When(e.related, MasterAttrs(c))
    + When(e.seqadj, SeqAdjAttrs(c))
    + When(e.synproxy, SynProxyAttrs(c))
  }

  /** The attributes of an event message; `secmarked` says that the connection has a security mark. */
  function EventAttrs(c: Conn, e: Events, secmarked: bool): seq<Attr> {
    TuplesAndZone(c) + IdAttrs(c) + StatusAttrs(c)
    + (if e.destroy then DestroyAttrs(c) else UpdateAttrs(c, e, secmarked))
    + MarkAttrs(c, e.mark)
  }

  // ---------------------------------------------------------------- the assumptions

  /** Addresses have the size of their family. */
  predicate AddrOk(a: Addr) {
    match a case NoAddr => true case V4(b) => |b| == 4 case V6(b) => |b| == 16
  }

  predicate TupleOk(t: Tuple) {
    AddrOk(t.src) && AddrOk(t.dst)
  }

  /**
    What the kernel guarantees of a connection: both directions have the same protocol, counters and times are
    64-bit, a helper name fits its field, the security text fits its reported length, and the protocol's own
    writer stays within its declared size and exists only for protocols that have a tuple.
   */
  predicate Ordinary(c: Conn, infoSize: nat) {
    && TupleOk(c.info.orig) && TupleOk(c.info.reply) && TupleOk(c.master)
    && c.info.reply.protonum == c.info.orig.protonum
    && (match c.acct case None => true case Some(a) =>
          |a.orig.packets| == 8 && |a.orig.bytes| == 8 && |a.reply.packets| == 8 && |a.reply.bytes| == 8)
    && (match c.tstamp case None => true case Some(t) => |t.start| == 8 && (t.stop.Some? ==> |t.stop.value| == 8))
    && (match c.help case Some(Some(name)) => |name| < NF_CT_HELPER_NAME_LEN case _ => true)
    && (match c.secctx case None => true case Some(s) => |s.text| + 1 <= s.reported)
    && (match c.labels case None => true case Some(words) => |words| == 4)
    && (match c.hook case None => true case Some(h) =>
          SizeAll(h.normal) <= infoSize && SizeAll(h.destroy) <= infoSize && L4TupleSize(c.info.orig.protonum) > 0)
  }

  // ---------------------------------------------------------------- sizes of the parts

  lemma TotalSizeGrows(a: nat, b: nat)
    requires a <= b
    ensures TotalSize(a) <= TotalSize(b)
  {
  }

  lemma L4Sizes(t: Tuple)
    ensures SizeAll(L4Attrs(t)) <= L4TupleSize(t.protonum)
  {
    var l := L4Attrs(t);
    if |l| == 2 {
      SizeTwo(l[0], l[1]);
      assert l == [l[0], l[1]];
    } else if |l| == 3 {
      SizeThree(l[0], l[1], l[2]);
      assert l == [l[0], l[1], l[2]];
    }
  }

  lemma IpSizes(t: Tuple)
    requires TupleOk(t)
    ensures Size(IpAttr(t)) <= 4 + 40
  {
    var k := IpAttr(t).kids;
    if k != [] {
      SizeTwo(k[0], k[1]);
      assert k == [k[0], k[1]];
    }
  }

  /** Each tuple leaves at least 16 of the bytes counted for it: the addresses of the other family. */
  lemma TupleSizes(t: Tuple)
    requires TupleOk(t)
    ensures SizeAll(TupleAttrs(t)) <= 2 * TotalSize(0) + TotalSize(1) + IpPolicyLen() - 16 + L4TupleSize(t.protonum)
  {
    IpSizes(t);
    L4Sizes(t);
    var num := Leaf(CTA_PROTO_NUM, [t.protonum]);
    EncodeConcat([num], L4Attrs(t));
    EncodeOne(num);
    SizeTwo(IpAttr(t), ProtoAttr(t));
  }

  lemma ZoneSizes(z: Zone, k1: nat, k2: nat, k3: nat)
    ensures SizeAll(ZoneAttrs(k1, z, NF_CT_ZONE_DIR_ORIG)) + SizeAll(ZoneAttrs(k2, z, NF_CT_ZONE_DIR_REPL))
            + SizeAll(ZoneAttrs(k3, z, NF_CT_DEFAULT_ZONE_DIR)) <= TotalSize(2)
  {
    EncodeOne(Leaf(k1, Be16(z.id)));
    EncodeOne(Leaf(k2, Be16(z.id)));
    EncodeOne(Leaf(k3, Be16(z.id)));
  }

  lemma TuplesAndZoneSizes(c: Conn)
    requires TupleOk(c.info.orig) && TupleOk(c.info.reply)
    ensures SizeAll(TuplesAndZone(c)) <= 2 * (3 * TotalSize(0) + TotalSize(1) + IpPolicyLen() - 16) + TotalSize(2)
            + L4TupleSize(c.info.orig.protonum) + L4TupleSize(c.info.reply.protonum)
  {
    var z := c.info.zone;
    var zo, zr := ZoneAttrs(CTA_TUPLE_ZONE, z, NF_CT_ZONE_DIR_ORIG), ZoneAttrs(CTA_TUPLE_ZONE, z, NF_CT_ZONE_DIR_REPL);
    var o, r := Nest(CTA_TUPLE_ORIG, TupleAttrs(c.info.orig) + zo),
                Nest(CTA_TUPLE_REPLY, TupleAttrs(c.info.reply) + zr);
    TupleSizes(c.info.orig);
    TupleSizes(c.info.reply);
    EncodeConcat(TupleAttrs(c.info.orig), zo);
    EncodeConcat(TupleAttrs(c.info.reply), zr);
    ZoneSizes(z, CTA_TUPLE_ZONE, CTA_TUPLE_ZONE, CTA_ZONE);
    SizeTwo(o, r);
    EncodeConcat([o, r], ZoneAttrs(CTA_ZONE, z, NF_CT_DEFAULT_ZONE_DIR));
  }

  lemma U32Sizes(kind: nat, n: U32)
    ensures SizeAll([U32Attr(kind, n)]) == TotalSize(4)
  {
    EncodeOne(U32Attr(kind, n));
  }

  lemma FixedSizes(c: Conn, skip: bool, always: bool)
    ensures SizeAll(StatusAttrs(c)) == TotalSize(4) && SizeAll(IdAttrs(c)) == TotalSize(4)
    ensures SizeAll(TimeoutAttrs(c, skip)) <= TotalSize(4) && SizeAll(MarkAttrs(c, always)) <= TotalSize(4)
  {
    U32Sizes(CTA_STATUS, c.info.status);
    U32Sizes(CTA_ID, c.id);
    U32Sizes(CTA_TIMEOUT, c.timeout);
    U32Sizes(CTA_MARK, c.info.mark);
  }

  lemma AcctSizes(c: Conn, infoSize: nat)
    requires Ordinary(c, infoSize)
    ensures SizeAll(AcctAttrs(c)) == AcctSize(c)
  {
    if c.acct.Some? {
      var a := c.acct.value;
      SizeTwo(Leaf(1, a.orig.packets), Leaf(2, a.orig.bytes));
      SizeTwo(Leaf(1, a.reply.packets), Leaf(2, a.reply.bytes));
      SizeTwo(CounterAttr(CTA_COUNTERS_ORIG, a.orig), CounterAttr(CTA_COUNTERS_REPLY, a.reply));
    }
  }

  lemma TstampSizes(c: Conn, infoSize: nat)
    requires Ordinary(c, infoSize)
    ensures SizeAll(TstampAttrs(c)) <= TstampSize(c)
  {
    if c.tstamp.Some? {
      var t := c.tstamp.value;
      var stop := match t.stop case None => [] case Some(s) => [Leaf(2, s)];
      EncodeConcat([Leaf(1, t.start)], stop);
      EncodeOne(Leaf(1, t.start));
      if t.stop.Some? {
        EncodeOne(Leaf(2, t.stop.value));
      }
      EncodeOne(Nest(CTA_TIMESTAMP, [Leaf(1, t.start)] + stop));
    }
  }

  lemma ProtoInfoSizes(c: Conn, infoSize: nat, destroy: bool)
    requires Ordinary(c, infoSize)
    ensures SizeAll(ProtoInfoAttrs(c, destroy, NO_FLAGS)) <= (if c.hook.None? then 0 else TotalSize(0) + infoSize)
  {
    if c.hook.Some? {
      var h := c.hook.value;
      EncodeOne(Nest(CTA_PROTOINFO, if destroy then h.destroy else h.normal));
    }
  }

  lemma HelpSizes(c: Conn, infoSize: nat)
    requires Ordinary(c, infoSize)
    ensures SizeAll(HelpAttrs(c)) <= TotalSize(0) + TotalSize(NF_CT_HELPER_NAME_LEN)
  {
    match c.help
    case Some(Some(name)) =>
      EncodeOne(Leaf(1, name + [0]));
      EncodeOne(Nest(CTA_HELP, [Leaf(1, name + [0])]));
      TotalSizeGrows(|name| + 1, NF_CT_HELPER_NAME_LEN);
    case _ =>
  }

  lemma SecctxSizes(c: Conn, infoSize: nat)
    requires Ordinary(c, infoSize)
    ensures SizeAll(SecctxAttrs(c)) <= SecctxSize(c)
  {
    match c.secctx
    case None =>
    case Some(s) =>
      EncodeOne(Leaf(1, s.text + [0]));
      EncodeOne(Nest(CTA_SECCTX, [Leaf(1, s.text + [0])]));
      TotalSizeGrows(|s.text| + 1, s.reported);
  }

  lemma LabelSizes(c: Conn, infoSize: nat)
    requires Ordinary(c, infoSize)
    ensures SizeAll(LabelAttrs(c)) <= LabelSize(c)
  {
    if c.labels.Some? {
      LabelLength(c.labels.value);
      EncodeOne(Leaf(CTA_LABELS, LabelBytes(c.labels.value)));
    }
  }

  lemma MasterSizes(c: Conn, infoSize: nat)
    requires Ordinary(c, infoSize)
    ensures SizeAll(MasterAttrs(c)) <= 3 * TotalSize(0) + TotalSize(1) + IpPolicyLen() - 16 +
            L4TupleSize(c.master.protonum)
  {
    TupleSizes(c.master);
    EncodeOne(Nest(CTA_TUPLE_MASTER, TupleAttrs(c.master)));
  }

  lemma SeqAdjOneSize(kind: nat, s: SeqAdj)
    ensures Size(SeqAdjAttr(kind, s)) == TotalSize(0) + 3 * TotalSize(4)
  {
    SizeThree(U32Attr(1, s.pos), U32Attr(2, s.before), U32Attr(3, s.after));
  }

  lemma SeqAdjSizes(c: Conn)
    ensures SizeAll(SeqAdjAttrs(c)) <= 2 * TotalSize(0) + 6 * TotalSize(4)
  {
    match c.seqadj
    case None =>
    case Some((o, r)) =>
      SeqAdjOneSize(CTA_SEQ_ADJ_ORIG, o);
      SeqAdjOneSize(CTA_SEQ_ADJ_REPLY, r);
      SizeTwo(SeqAdjAttr(CTA_SEQ_ADJ_ORIG, o), SeqAdjAttr(CTA_SEQ_ADJ_REPLY, r));
  }

  /** The nest that the prediction does not count. */
  lemma SynProxySizes(c: Conn)
    ensures SizeAll(SynProxyAttrs(c)) <= 28
  {
    match c.synproxy
    case None =>
    case Some(s) =>
      SizeThree(U32Attr(1, s.isn), U32Attr(2, s.its), U32Attr(3, s.tsoff));
      EncodeOne(Nest(CTA_SYNPROXY, [U32Attr(1, s.isn), U32Attr(2, s.its), U32Attr(3, s.tsoff)]));
  }

  lemma SizeWhen(b: bool, attrs: seq<Attr>)
    ensures SizeAll(When(b, attrs)) <= SizeAll(attrs)
  {
  }

  lemma SizeFour(a: seq<Attr>, b: seq<Attr>, c: seq<Attr>, d: seq<Attr>)
    ensures SizeAll(a + b + c + d) == SizeAll(a) + SizeAll(b) + SizeAll(c) + SizeAll(d)
  {
    EncodeConcat(a, b);
    EncodeConcat(a + b, c);
    EncodeConcat(a + b + c, d);
  }

  lemma DestroySizes(c: Conn, infoSize: nat)
    requires Ordinary(c, infoSize)
    ensures SizeAll(DestroyAttrs(c)) <= TotalSize(4) + AcctSize(c) + TstampSize(c) + TotalSize(0) + infoSize
  {
    FixedSizes(c, true, true);
    AcctSizes(c, infoSize);
    TstampSizes(c, infoSize);
    ProtoInfoSizes(c, infoSize, true);
    SizeFour(TimeoutAttrs(c, true), AcctAttrs(c), TstampAttrs(c), ProtoInfoAttrs(c, true, NO_FLAGS));
  }

  lemma UpdateSum(c: Conn, e: Events, secmarked: bool)
    ensures SizeAll(UpdateAttrs(c, e, secmarked))
         == SizeAll(TimeoutAttrs(c, false)) + SizeAll(When(e.protoinfo, ProtoInfoAttrs(c, false, NO_FLAGS)))
            + SizeAll(When(e.helper || c.help.Some?, HelpAttrs(c)))
            + SizeAll(When(e.secmark || secmarked, SecctxAttrs(c)))
            + SizeAll(When(e.labels, LabelAttrs(c))) + SizeAll(When(e.related, MasterAttrs(c)))
            + SizeAll(When(e.seqadj, SeqAdjAttrs(c))) + SizeAll(When(e.synproxy, SynProxyAttrs(c)))
  {
    hide SizeAll, TimeoutAttrs, ProtoInfoAttrs, HelpAttrs, SecctxAttrs, LabelAttrs, MasterAttrs, SeqAdjAttrs,
         SynProxyAttrs, When;
    SizeFour(TimeoutAttrs(c, false), When(e.protoinfo, ProtoInfoAttrs(c, false, NO_FLAGS)),
             When(e.helper || c.help.Some?, HelpAttrs(c)), When(e.secmark || secmarked, SecctxAttrs(c)));
    SizeFour(When(e.labels, LabelAttrs(c)), When(e.related, MasterAttrs(c)), When(e.seqadj, SeqAdjAttrs(c)),
             When(e.synproxy, SynProxyAttrs(c)));
    EncodeConcat(FirstUpdates(c, e, secmarked), LaterUpdates(c, e));
  }

  /** The part that may exceed what was counted for it: the synproxy nest, and the protocol of the master. */
  lemma UpdateSizes(c: Conn, e: Events, secmarked: bool, infoSize: nat)
    requires Ordinary(c, infoSize)
    ensures SizeAll(UpdateAttrs(c, e, secmarked))
         <= TotalSize(4) + (if c.hook.None? then 0 else TotalSize(0) + infoSize)
            + TotalSize(0) + TotalSize(NF_CT_HELPER_NAME_LEN) + SecctxSize(c) + LabelSize(c)
            + 3 * TotalSize(0) + TotalSize(1) + IpPolicyLen() - 16 + L4TupleSize(c.master.protonum)
            + 2 * TotalSize(0) + 6 * TotalSize(4) + 28
  {
    hide SizeAll, UpdateAttrs, TimeoutAttrs, ProtoInfoAttrs, HelpAttrs, SecctxAttrs, LabelAttrs, MasterAttrs,
         SeqAdjAttrs, SynProxyAttrs, Ordinary, When;
    UpdateSum(c, e, secmarked);
    SizeWhen(e.protoinfo, ProtoInfoAttrs(c, false, NO_FLAGS));
    SizeWhen(e.helper || c.help.Some?, HelpAttrs(c));
    SizeWhen(e.secmark || secmarked, SecctxAttrs(c));
    SizeWhen(e.labels, LabelAttrs(c));
    SizeWhen(e.related, MasterAttrs(c));
    SizeWhen(e.seqadj, SeqAdjAttrs(c));
    SizeWhen(e.synproxy, SynProxyAttrs(c));
    FixedSizes(c, false, true);
    ProtoInfoSizes(c, infoSize, false);
    HelpSizes(c, infoSize);
    SecctxSizes(c, infoSize);
    LabelSizes(c, infoSize);
    MasterSizes(c, infoSize);
    SeqAdjSizes(c);
    SynProxySizes(c);
  }

  lemma EventSum(c: Conn, e: Events, secmarked: bool)
    ensures SizeAll(EventAttrs(c, e, secmarked))
         == SizeAll(TuplesAndZone(c)) + SizeAll(IdAttrs(c)) + SizeAll(StatusAttrs(c))
            + SizeAll(if e.destroy then DestroyAttrs(c) else UpdateAttrs(c, e, secmarked))
            + SizeAll(MarkAttrs(c, e.mark))
  {
    hide SizeAll, TuplesAndZone, IdAttrs, StatusAttrs, DestroyAttrs, UpdateAttrs, MarkAttrs;
    var mid := if e.destroy then DestroyAttrs(c) else UpdateAttrs(c, e, secmarked);
    SizeFour(TuplesAndZone(c), IdAttrs(c), StatusAttrs(c), mid);
    EncodeConcat(TuplesAndZone(c) + IdAttrs(c) + StatusAttrs(c) + mid, MarkAttrs(c, e.mark));
    assert EventAttrs(c, e, secmarked) == TuplesAndZone(c) + IdAttrs(c) + StatusAttrs(c) + mid + MarkAttrs(c, e.mark);
  }

  /**
    The prediction is enough for every connection and every event mask, even if the master connection has
    another protocol: what is not counted, at most 28 bytes for the synproxy nest and 24 for the master's
    protocol, is covered by the 16 bytes of the other address family in each of the three tuples and, for a
    protocol without a tuple, by the nest it does not have.
   */
  lemma EventFits(c: Conn, e: Events, secmarked: bool, infoSize: nat)
    requires Ordinary(c, infoSize)
    ensures NFGENMSG_LEN + SizeAll(EventAttrs(c, e, secmarked)) <= NlmsgSize(c, infoSize)
  {
    assert L4TupleSize(c.info.orig.protonum) == 0 ==> c.hook.None?;
    assert L4TupleSize(c.info.reply.protonum) == L4TupleSize(c.info.orig.protonum);
    L4TupleSizes(c.info.orig.protonum);
    L4TupleSizes(c.master.protonum);
    Numerals();
    TuplesAndZoneSizes(c);
    EventSum(c, e, secmarked);
    FixedSizes(c, true, e.mark);
    hide SizeAll, EventAttrs, TuplesAndZone, IdAttrs, StatusAttrs, DestroyAttrs, UpdateAttrs, MarkAttrs, TotalSize,
         L4TupleSize;
    if e.destroy {
      DestroySizes(c, infoSize);
    } else {
      UpdateSizes(c, e, secmarked, infoSize);
    }
  }

  lemma Numerals()
    ensures TotalSize(0) == 4 && TotalSize(1) == 8 && TotalSize(2) == 8 && TotalSize(4) == 8 && TotalSize(8) == 12
    ensures TotalSize(16) == 20
  {
  }

  lemma L4TupleSizes(p: Byte)
    ensures L4TupleSize(p) == 0 || 16 <= L4TupleSize(p) <= 24
  {
  }

  // ---------------------------------------------------------------- the builder as written

  datatype Outcome = NothingToSay | NobodyListens | NoMemory | TooLong | Sent(group: nat, message: seq<Byte>)

  function EventHead(c: Conn, e: Events, portid: U32): Head {
    Head(if e.destroy then NFNL_MSG_CT_DELETE else NFNL_MSG_CT_NEW,
         if !e.destroy && (e.created || e.related) then NLM_F_CREATE_EXCL else 0,
         0, portid, c.info.orig.l3num)
  }

  /** The writers of a destroy event. */
  method WriteDestroy(b: Buffer, c: Conn, ct: Session) returns (ok: bool)
    requires |b.data| <= b.cap && !ct.locked && ct.tcp == c.tcp
    modifies b, ct`locked
    ensures |b.data| <= b.cap && !ct.locked && Wrote(old(b.data), b.data, b.cap, ok, DestroyAttrs(c))
  {
    hide Wrote;
    ok := b.DumpTimeout(c, true);
    ghost var acc := TimeoutAttrs(c, true);
    ghost var mid, was := b.data, ok;
    if ok { ok := b.DumpAcct(c); }
    Next(old(b.data), mid, b.data, b.cap, was, ok, acc, AcctAttrs(c));
    acc, mid, was := acc + AcctAttrs(c), b.data, ok;
    if ok { ok := b.DumpTimestamp(c); }
    Next(old(b.data), mid, b.data, b.cap, was, ok, acc, TstampAttrs(c));
    acc, mid, was := acc + TstampAttrs(c), b.data, ok;
    if ok { ok := b.DumpProtoinfo(c, ct, true, NO_FLAGS); }
    Next(old(b.data), mid, b.data, b.cap, was, ok, acc, ProtoInfoAttrs(c, true, NO_FLAGS));
  }

  /** The writers of any other event: first the timeout, the protocol, the helper and the security label. */
  method WriteFirst(b: Buffer, c: Conn, ct: Session, e: Events, secmarked: bool) returns (ok: bool)
    requires |b.data| <= b.cap && !ct.locked && ct.tcp == c.tcp
    modifies b, ct`locked
    ensures |b.data| <= b.cap && !ct.locked && Wrote(old(b.data), b.data, b.cap, ok, FirstUpdates(c, e, secmarked))
  {
    hide Wrote, TimeoutAttrs, ProtoInfoAttrs, HelpAttrs, SecctxAttrs;
    ok := b.DumpTimeout(c, false);
    ghost var acc := TimeoutAttrs(c, false);
    ghost var mid, was := b.data, ok;
    if ok { if e.protoinfo { ok := b.DumpProtoinfo(c, ct, false, NO_FLAGS); } else { ok := b.PutNothing(); } }
    ghost var x := When(e.protoinfo, ProtoInfoAttrs(c, false, NO_FLAGS));
    Next(old(b.data), mid, b.data, b.cap, was, ok, acc, x);
    acc, mid, was := acc + x, b.data, ok;
    if ok { if e.helper || c.help.Some? { ok := b.DumpHelpinfo(c); } else { ok := b.PutNothing(); } }
    x := When(e.helper || c.help.Some?, HelpAttrs(c));
    Next(old(b.data), mid, b.data, b.cap, was, ok, acc, x);
    acc, mid, was := acc + x, b.data, ok;
    if ok { if e.secmark || secmarked { ok := b.DumpSecctx(c); } else { ok := b.PutNothing(); } }
    x := When(e.secmark || secmarked, SecctxAttrs(c));
    Next(old(b.data), mid, b.data, b.cap, was, ok, acc, x);
  }

  /** Then the labels, the master, the sequence adjustments and the synproxy state. */
  method WriteLater(b: Buffer, c: Conn, e: Events) returns (ok: bool)
    requires |b.data| <= b.cap
    modifies b`data
    ensures |b.data| <= b.cap && Wrote(old(b.data), b.data, b.cap, ok, LaterUpdates(c, e))
  {
    hide Wrote, LabelAttrs, MasterAttrs, SeqAdjAttrs, SynProxyAttrs;
    if e.labels { ok := b.DumpLabels(c); } else { ok := b.PutNothing(); }
    ghost var acc := When(e.labels, LabelAttrs(c));
    ghost var mid, was := b.data, ok;
    if ok { if e.related { ok := b.DumpMaster(c); } else { ok := b.PutNothing(); } }
    ghost var x := When(e.related, MasterAttrs(c));
    Next(old(b.data), mid, b.data, b.cap, was, ok, acc, x);
    acc, mid, was := acc + x, b.data, ok;
    if ok { if e.seqadj { ok := b.DumpSeqAdj(c); } else { ok := b.PutNothing(); } }
    x := When(e.seqadj, SeqAdjAttrs(c));
    Next(old(b.data), mid, b.data, b.cap, was, ok, acc, x);
    acc, mid, was := acc + x, b.data, ok;
    if ok { if e.synproxy { ok := b.DumpSynproxy(c); } else { ok := b.PutNothing(); } }
    x := When(e.synproxy, SynProxyAttrs(c));
    Next(old(b.data), mid, b.data, b.cap, was, ok, acc, x);
  }

  method WriteUpdate(b: Buffer, c: Conn, ct: Session, e: Events, secmarked: bool) returns (ok: bool)
    requires |b.data| <= b.cap && !ct.locked && ct.tcp == c.tcp
    modifies b, ct`locked
    ensures |b.data| <= b.cap && !ct.locked && Wrote(old(b.data), b.data, b.cap, ok, UpdateAttrs(c, e, secmarked))
  {
    hide Wrote, FirstUpdates, LaterUpdates;
    ok := WriteFirst(b, c, ct, e, secmarked);
    ghost var mid, was := b.data, ok;
    if ok { ok := WriteLater(b, c, e); }
    Next(old(b.data), mid, b.data, b.cap, was, ok, FirstUpdates(c, e, secmarked), LaterUpdates(c, e));
  }

  /** All attributes of an event message. */
  method WriteEvent(b: Buffer, c: Conn, ct: Session, e: Events, secmarked: bool) returns (ok: bool)
    requires |b.data| <= b.cap && !ct.locked && ct.tcp == c.tcp
    modifies b, ct`locked
    ensures |b.data| <= b.cap && !ct.locked && Wrote(old(b.data), b.data, b.cap, ok, EventAttrs(c, e, secmarked))
  {
    hide Wrote, TuplesAndZone, IdAttrs, StatusAttrs, MarkAttrs, DestroyAttrs, UpdateAttrs;
    ok := b.DumpTuplesAndZone(c);
    ghost var acc := TuplesAndZone(c);
    ghost var mid, was := b.data, ok;
    if ok { ok := b.DumpId(c); }
    Next(old(b.data), mid, b.data, b.cap, was, ok, acc, IdAttrs(c));
    acc, mid, was := acc + IdAttrs(c), b.data, ok;
    if ok { ok := b.DumpStatus(c); }
    Next(old(b.data), mid, b.data, b.cap, was, ok, acc, StatusAttrs(c));
    acc, mid, was := acc + StatusAttrs(c), b.data, ok;
    if ok {
      if e.destroy { ok := WriteDestroy(b, c, ct); } else { ok := WriteUpdate(b, c, ct, e, secmarked); }
    }
    ghost var x := if e.destroy then DestroyAttrs(c) else UpdateAttrs(c, e, secmarked);
    Next(old(b.data), mid, b.data, b.cap, was, ok, acc, x);
    acc, mid, was := acc + x, b.data, ok;
    if ok { ok := b.DumpMark(c, e.mark); }
    Next(old(b.data), mid, b.data, b.cap, was, ok, acc, MarkAttrs(c, e.mark));
  }

  /**
    ctnetlink_conntrack_event. With a buffer of the predicted size the exits for a message that does not fit
    are never taken: whenever there is something to say and somebody listens, the whole message is sent.
   */
  method ConntrackEvent(c: Conn, mask: U32, secmarked: bool, infoSize: nat, portid: U32, report: bool,
                        listeners: set<nat>, memory: bool)
    returns (r: Outcome)
    requires Ordinary(c, infoSize)
    ensures var e := EventsOf(mask);
            r == if mask == 0 then NothingToSay
                 else if !report && GroupOf(e) !in listeners then NobodyListens
                 else if !memory then NoMemory
                 else Sent(GroupOf(e), Message(EventHead(c, e, portid), EventAttrs(c, e, secmarked)))
  {
    var e := EventsOf(mask);
    if mask == 0 {
      return NothingToSay;
    }
    var group := GroupOf(e);
    if !report && group !in listeners {
      return NobodyListens;
    }
    if !memory {
      return NoMemory;
    }
    ghost var attrs := EventAttrs(c, e, secmarked);
    EventFits(c, e, secmarked, infoSize);
    EncodeAllSize(attrs);
    hide EncodeAll, SizeAll, EventAttrs, NlmsgSize, HeadBytes, Ordinary;
    var b := new Buffer(Align4(NLMSG_HDRLEN + NlmsgSize(c, infoSize)));
    if NLMSG_HDRLEN + NFGENMSG_LEN > b.cap {
      return TooLong;
    }
    var h := EventHead(c, e, portid);
    b.data := HeadBytes(h, 0);
    var ct := new Session(c.tcp);
    var ok := WriteEvent(b, c, ct, e, secmarked);
    if !ok {
      return TooLong;
    }
    assert b.data == HeadBytes(h, 0) + EncodeAll(attrs);
    b.data := HeadBytes(h, |b.data|) + b.data[NLMSG_HDRLEN + NFGENMSG_LEN..];
    return Sent(group, b.data);
  }

  // ---------------------------------------------------------------- and not a byte less would do

  function Word(n: nat): seq<Byte> {
    if n == 0 then [] else [1] + Word(n - 1)
  }

  lemma {:induction false} WordLen(n: nat)
    ensures |Word(n)| == n
  {
    if n > 0 {
      WordLen(n - 1);
    }
  }

  /** An IPv6 tuple of a protocol without a hook, and an ICMPv6 one. */
  function PlainTuple(): Tuple {
    Tuple(NFPROTO_IPV6, 200, V6(Word(16)), V6(Word(16)), NoL4Src, NoL4Dst, Original)
  }

  function PingTuple(): Tuple {
    Tuple(NFPROTO_IPV6, IPPROTO_ICMPV6, V6(Word(16)), V6(Word(16)), IcmpId(1), IcmpTypeCode(128, 0), Original)
  }

  /** A connection that has everything the prediction knows of, and the nest it does not know of. */
  function Worst(): Conn {
    var seen := TcpSeen(0, 0, 0, 0, 0, 0);
    Conn(Info(PlainTuple(), PlainTuple(), Zone(5, 0, NF_CT_DEFAULT_ZONE_DIR), 1, 0x41), 1, 1, PingTuple(), 1, None,
         TcpState(seen, seen, 0, 0, 0, 0, 0, 0, 0, 0, 0, 0), None, None, None, Some(Some(Word(15))), Some([1, 0, 0, 0]),
         Some((SeqAdj(1, 1, 1), SeqAdj(1, 1, 1))), Some(SynProxy(1, 1, 1)))
  }

  function EveryEvent(): Events {
    Events(false, true, true, true, true, true, true, true, true, true)
  }

  lemma WorstIpSize(t: Tuple)
    requires t.l3num == NFPROTO_IPV6 && t.src == V6(Word(16)) && t.dst == V6(Word(16))
    ensures Size(IpAttr(t)) == 44
  {
    WordLen(16);
    SizeTwo(Leaf(CTA_IP_V6_SRC, Word(16)), Leaf(CTA_IP_V6_DST, Word(16)));
    hide Word;
  }

  lemma PlainProtoSize()
    ensures Size(ProtoAttr(PlainTuple())) == 12
  {
    var num := Leaf(CTA_PROTO_NUM, [PlainTuple().protonum]);
    EncodeOne(num);
    assert [num] + L4Attrs(PlainTuple()) == [num];
    hide Word;
  }

  lemma PingProtoSize()
    ensures Size(ProtoAttr(PingTuple())) == 36
  {
    var p := PingTuple();
    var num, l := Leaf(CTA_PROTO_NUM, [p.protonum]), L4Attrs(p);
    assert l == [l[0], l[1], l[2]];
    SizeThree(l[0], l[1], l[2]);
    EncodeOne(num);
    EncodeConcat([num], l);
    hide Word, SizeAll;
  }

  lemma PlainSize()
    ensures SizeAll(TupleAttrs(PlainTuple())) == 56 && SizeAll(TupleAttrs(PingTuple())) == 80
  {
    hide Size, SizeAll, IpAttr, ProtoAttr, Word;
    WorstIpSize(PlainTuple());
    WorstIpSize(PingTuple());
    PlainProtoSize();
    PingProtoSize();
    SizeTwo(IpAttr(PlainTuple()), ProtoAttr(PlainTuple()));
    SizeTwo(IpAttr(PingTuple()), ProtoAttr(PingTuple()));
  }

  /** One direction of the worst connection, without a zone of its own. */
  lemma PlainNest(kind: nat)
    ensures Size(Nest(kind, TupleAttrs(PlainTuple()) + [])) == 60
  {
    PlainSize();
    assert TupleAttrs(PlainTuple()) + [] == TupleAttrs(PlainTuple());
  }

  lemma WorstTuplesSize()
    ensures SizeAll(TuplesAndZone(Worst())) == 128
  {
    var t, z := PlainTuple(), Leaf(CTA_ZONE, Be16(5));
    var o, r := Nest(CTA_TUPLE_ORIG, TupleAttrs(t) + []), Nest(CTA_TUPLE_REPLY, TupleAttrs(t) + []);
    assert TuplesAndZone(Worst()) == [o, r] + [z];
    hide Size, TupleAttrs, TuplesAndZone, PlainTuple;
    PlainNest(CTA_TUPLE_ORIG);
    PlainNest(CTA_TUPLE_REPLY);
    SizeTwo(o, r);
    EncodeConcat([o, r], [z]);
    U16Size(CTA_ZONE, 5);
  }

  lemma U16Size(kind: nat, n: U16)
    ensures SizeAll([Leaf(kind, Be16(n))]) == 8
  {
    EncodeOne(Leaf(kind, Be16(n)));
  }

  lemma WorstHelp()
    ensures SizeAll(HelpAttrs(Worst())) == 24
  {
    WordLen(15);
    EncodeOne(Leaf(1, Word(15) + [0]));
    EncodeOne(Nest(CTA_HELP, [Leaf(1, Word(15) + [0])]));
  }

  lemma WorstLabels()
    ensures SizeAll(LabelAttrs(Worst())) == 20
  {
    LabelLength([1, 0, 0, 0]);
    assert Worst().labels.value[0] == 1;
    EncodeOne(Leaf(CTA_LABELS, LabelBytes([1, 0, 0, 0])));
  }

  lemma WorstMaster()
    ensures SizeAll(MasterAttrs(Worst())) == 84
  {
    assert MasterAttrs(Worst()) == [Nest(CTA_TUPLE_MASTER, TupleAttrs(PingTuple()))];
    hide TupleAttrs, MasterAttrs, PingTuple, PlainTuple, Worst;
    PlainSize();
    EncodeOne(Nest(CTA_TUPLE_MASTER, TupleAttrs(PingTuple())));
  }

  lemma WorstSeqAdj()
    ensures SizeAll(SeqAdjAttrs(Worst())) == 56
  {
    var q := SeqAdj(1, 1, 1);
    SeqAdjOneSize(CTA_SEQ_ADJ_ORIG, q);
    SeqAdjOneSize(CTA_SEQ_ADJ_REPLY, q);
    SizeTwo(SeqAdjAttr(CTA_SEQ_ADJ_ORIG, q), SeqAdjAttr(CTA_SEQ_ADJ_REPLY, q));
  }

  lemma WorstSynProxy()
    ensures SizeAll(SynProxyAttrs(Worst())) == 28
  {
    SizeThree(U32Attr(1, 1), U32Attr(2, 1), U32Attr(3, 1));
    EncodeOne(Nest(CTA_SYNPROXY, [U32Attr(1, 1), U32Attr(2, 1), U32Attr(3, 1)]));
  }

  lemma WorstNumbers()
    ensures SizeAll(TimeoutAttrs(Worst(), false)) == 8 && SizeAll(MarkAttrs(Worst(), true)) == 8
    ensures SizeAll(IdAttrs(Worst())) == 8 && SizeAll(StatusAttrs(Worst())) == 8
    ensures SizeAll(ProtoInfoAttrs(Worst(), false, NO_FLAGS)) == 0 && SizeAll(SecctxAttrs(Worst())) == 0
  {
    U32Sizes(CTA_TIMEOUT, 1);
    U32Sizes(CTA_MARK, 1);
    U32Sizes(CTA_ID, 1);
    U32Sizes(CTA_STATUS, 0x41);
  }

  lemma WorstUpdates()
    ensures SizeAll(UpdateAttrs(Worst(), EveryEvent(), true)) == 220
  {
    WorstHelp();
    WorstLabels();
    WorstMaster();
    WorstSeqAdj();
    WorstSynProxy();
    WorstNumbers();
    hide SizeAll, UpdateAttrs, TimeoutAttrs, ProtoInfoAttrs, HelpAttrs, SecctxAttrs, LabelAttrs, MasterAttrs,
         SeqAdjAttrs, SynProxyAttrs, Worst;
    UpdateSum(Worst(), EveryEvent(), true);
  }

  lemma WorstPrediction()
    ensures Ordinary(Worst(), 0) && NlmsgSize(Worst(), 0) == 376
  {
    WordLen(15);
    WordLen(16);
    Numerals();
  }

  /** The bound is reached: in a buffer one byte shorter this message would not fit. */
  lemma EventFitsTightly()
    ensures Ordinary(Worst(), 0)
    ensures NFGENMSG_LEN + SizeAll(EventAttrs(Worst(), EveryEvent(), true)) == NlmsgSize(Worst(), 0)
  {
    WorstPrediction();
    WorstTuplesSize();
    WorstUpdates();
    WorstNumbers();
    EventSum(Worst(), EveryEvent(), true);
    hide SizeAll, EventAttrs, UpdateAttrs, TuplesAndZone, IdAttrs, StatusAttrs, MarkAttrs, Worst, NlmsgSize, Ordinary;
  }
}
