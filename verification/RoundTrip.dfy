/**
  Round trip: what a dump message says about the tuples and the zone of a
  connection, a request to create a connection understands.
 */
module RoundTrip {
  import opened Conntrack
  import opened Netlink
  import opened CtMessage
  import opened CtParse

  lemma ParseUnderStep(a: Attr, tail: seq<Byte>, maxKind: nat, p: Policy)
    requires Sized(a) && Obeys(p, a.kind, Payload(a))
    ensures ParseUnder(Encode(a) + tail, maxKind, p) ==
            if a.kind > maxKind then ParseUnder(tail, maxKind, p)
            else match ParseUnder(tail, maxKind, p)
              case Ok(tb) => Ok(map[a.kind := Payload(a)] + tb)
              case Err(e) => Err(e)
  {
    EncodeParts(a);
    var len := NLA_HDRLEN + |Payload(a)|;
    hide Encode, ParseUnder, Header, Zeros, Payload, Obeys;
    ParseUnderParts(len, WireKind(a), Payload(a), Zeros(Size(a) - len), tail, maxKind, p);
  }

  lemma ParseUnderParts(len: nat, kind: nat, data: seq<Byte>, pad: seq<Byte>, tail: seq<Byte>, maxKind: nat, p: Policy)
    requires len == NLA_HDRLEN + |data| < 0x1_0000 && 0 < kind % 0x4000 && kind < 0x1_0000
    requires len + |pad| == Align4(len) && Obeys(p, kind % 0x4000, data)
    ensures ParseUnder(Header(len, kind) + data + pad + tail, maxKind, p) ==
            if kind % 0x4000 > maxKind then ParseUnder(tail, maxKind, p)
            else match ParseUnder(tail, maxKind, p)
              case Ok(tb) => Ok(map[kind % 0x4000 := data] + tb)
              case Err(e) => Err(e)
  {
    var b := Header(len, kind) + data + pad + tail;
    assert b == Header(len, kind) + (data + pad + tail);
    HeaderReads(len, kind, data + pad + tail);
    assert b[NLA_HDRLEN..len] == data;
    if Align4(len) >= |b| {
      assert tail == [];
    } else {
      assert b[Align4(len)..] == tail;
    }
  }

  predicate Clean(attrs: seq<Attr>, p: Policy) {
    forall a :: a in attrs ==> Sized(a) && Obeys(p, a.kind, Payload(a))
  }

  /** Attributes that obey a policy are read back under it. */
  lemma {:induction false} ParseUnderEncoded(attrs: seq<Attr>, maxKind: nat, p: Policy)
    requires Clean(attrs, p)
    ensures ParseUnder(EncodeAll(attrs), maxKind, p) == Ok(TableOf(attrs, maxKind))
    decreases |attrs|
  {
    if attrs != [] {
      ParseUnderStep(attrs[0], EncodeAll(attrs[1..]), maxKind, p);
      ParseUnderEncoded(attrs[1..], maxKind, p);
    }
  }

  // ---------------------------------------------------------------- tuples

  /** A tuple of a tracked connection: both addresses of its family, and the layer-4 fields of its protocol. */
  predicate Complete(t: Tuple) {
    && (|| (t.l3num == NFPROTO_IPV4 && t.src.V4? && t.dst.V4? && |t.src.bytes| == 4 && |t.dst.bytes| == 4)
        || (t.l3num == NFPROTO_IPV6 && t.src.V6? && t.dst.V6? && |t.src.bytes| == 16 && |t.dst.bytes| == 16))
    && if HasPorts(t.protonum) then t.l4src.SrcPort? && t.l4dst.DstPort?
       else if t.protonum == IPPROTO_ICMP || t.protonum == IPPROTO_ICMPV6 then
         t.l4src.IcmpId? && t.l4dst.IcmpTypeCode? && Invertible(t.protonum, t.l4dst.itype)
       else t.l4src == NoL4Src && t.l4dst == NoL4Dst
  }

  lemma TableOfTwo(a: Attr, b: Attr, maxKind: nat)
    requires 0 < a.kind <= maxKind && 0 < b.kind <= maxKind
    ensures TableOf([a, b], maxKind) == map[a.kind := Payload(a)] + map[b.kind := Payload(b)]
  {
    assert [a, b][1..] == [b] && [b][1..] == [];
    hide Payload;
    assert TableOf([b], maxKind) == map[b.kind := Payload(b)];
  }

  lemma Be16Reads(n: U16)
    ensures GetBe16(Be16(n)) == n
  {
  }

  /** A pair of addresses is read back as a table. */
  lemma AddressesRead(src: Attr, dst: Attr)
    requires src.Leaf? && dst.Leaf? && 0 < src.kind < dst.kind <= CTA_IP_MAX && |src.data| == |dst.data|
    requires |src.data| == if src.kind >= CTA_IP_V6_SRC then 16 else 4
    requires dst.kind >= CTA_IP_V6_SRC ==> |dst.data| == 16
    ensures ParseUnder(EncodeAll([src, dst]), CTA_IP_MAX, IP_POLICY) ==
            Ok(map[src.kind := src.data] + map[dst.kind := dst.data])
  {
    ParseUnderEncoded([src, dst], CTA_IP_MAX, IP_POLICY);
    TableOfTwo(src, dst, CTA_IP_MAX);
    hide EncodeAll, ParseUnder, TableOf;
  }

  lemma IpReads(t: Tuple, t0: Tuple)
    requires Complete(t) && t0.l3num == t.l3num
    ensures ParseTupleIp(Payload(IpAttr(t)), t0, ALL_FLAGS) == Ok(t0.(src := t.src, dst := t.dst))
  {
    var v6 := t.l3num == NFPROTO_IPV6;
    var src := Leaf(if v6 then CTA_IP_V6_SRC else CTA_IP_V4_SRC, t.src.bytes);
    var dst := Leaf(if v6 then CTA_IP_V6_DST else CTA_IP_V4_DST, t.dst.bytes);
    assert IpAttr(t).kids == [src, dst];
    assert Payload(IpAttr(t)) == EncodeAll([src, dst]);
    hide EncodeAll, ParseUnder, TableOf, IpAttr, Payload;
    AddressesRead(src, dst);
    assert t.src.bytes[..|t.src.bytes|] == t.src.bytes;
    assert t.dst.bytes[..|t.dst.bytes|] == t.dst.bytes;
  }

  lemma L4Parses(t: Tuple, t0: Tuple, tb: Table)
    requires Complete(t)
    requires t0 == ZERO_TUPLE.(l3num := t0.l3num, src := t0.src, dst := t0.dst, protonum := t.protonum)
    requires forall a :: a in L4Attrs(t) ==> a.kind in tb && tb[a.kind] == Payload(a)
    ensures ParseL4(tb, t0, ALL_FLAGS) == Ok(t0.(l4src := t.l4src, l4dst := t.l4dst))
  {
    var l4 := L4Attrs(t);
    if HasPorts(t.protonum) {
      assert l4[0] in l4 && l4[1] in l4;
      Be16Reads(t.l4src.port);
      Be16Reads(t.l4dst.port);
    } else if t.l4src.IcmpId? {
      assert l4[0] in l4 && l4[1] in l4 && l4[2] in l4;
      Be16Reads(t.l4src.id);
    }
  }

  predicate Distinct(attrs: seq<Attr>) {
    forall i, j :: 0 <= i < j < |attrs| ==> attrs[i].kind != attrs[j].kind
  }

  /** When no kind occurs twice, the table holds every attribute. */
  lemma {:induction false} TableHolds(attrs: seq<Attr>, maxKind: nat, i: nat)
    requires Distinct(attrs) && i < |attrs| && 0 < attrs[i].kind <= maxKind
    ensures attrs[i].kind in TableOf(attrs, maxKind) && TableOf(attrs, maxKind)[attrs[i].kind] == Payload(attrs[i])
    decreases |attrs|
  {
    if i == 0 {
      TableKinds(attrs[1..], maxKind, attrs[0].kind);
    } else {
      TableHolds(attrs[1..], maxKind, i - 1);
    }
  }

  lemma ProtoDistinct(t: Tuple)
    ensures Distinct(ProtoAttr(t).kids)
  {
  }

  /** The layer-4 attributes and the protocol number, as a table. */
  lemma L4Table(t: Tuple, t0: Tuple)
    requires Complete(t)
    requires t0 == ZERO_TUPLE.(l3num := t0.l3num, src := t0.src, dst := t0.dst, protonum := t.protonum)
    ensures var tb := TableOf(ProtoAttr(t).kids, CTA_PROTO_MAX);
            && CTA_PROTO_NUM in tb && tb[CTA_PROTO_NUM] == [t.protonum]
            && ParseL4(tb, t0, ALL_FLAGS) == Ok(t0.(l4src := t.l4src, l4dst := t.l4dst))
  {
    var kids := ProtoAttr(t).kids;
    var tb := TableOf(kids, CTA_PROTO_MAX);
    ProtoDistinct(t);
    L4Leaves(t);
    TableHolds(kids, CTA_PROTO_MAX, 0);
    forall a | a in L4Attrs(t)
      ensures a.kind in tb && tb[a.kind] == Payload(a)
    {
      var i :| 0 <= i < |L4Attrs(t)| && L4Attrs(t)[i] == a;
      TableHolds(kids, CTA_PROTO_MAX, i + 1);
    }
    L4Parses(t, t0, tb);
    hide L4Attrs, Complete, ParseL4, TableOf, Payload;
  }

  predicate L4Leaf(a: Attr) {
    a.Leaf? && CTA_PROTO_SRC_PORT <= a.kind <= CTA_PROTO_MAX &&
    |a.data| ==
    if a.kind in {CTA_PROTO_ICMP_TYPE, CTA_PROTO_ICMP_CODE, CTA_PROTO_ICMPV6_TYPE, CTA_PROTO_ICMPV6_CODE} then 1 else 2
  }

  lemma L4Leaves(t: Tuple)
    ensures forall a :: a in L4Attrs(t) ==> L4Leaf(a)
  {
  }

  /** The protocol's attributes obey its policies. */
  lemma ProtoClean(t: Tuple)
    ensures Clean(ProtoAttr(t).kids, PROTO_POLICY) && Clean(ProtoAttr(t).kids, L4Policy(t.protonum))
  {
    L4Leaves(t);
    hide L4Attrs;
  }

  lemma ProtoReads(t: Tuple, t0: Tuple)
    requires Complete(t)
    requires t0 == ZERO_TUPLE.(l3num := t0.l3num, src := t0.src, dst := t0.dst)
    ensures ParseTupleProto(Payload(ProtoAttr(t)), t0, ALL_FLAGS) ==
            Ok(t0.(protonum := t.protonum, l4src := t.l4src, l4dst := t.l4dst))
  {
    var kids := ProtoAttr(t).kids;
    ProtoClean(t);
    ParseUnderEncoded(kids, CTA_PROTO_MAX, PROTO_POLICY);
    ParseUnderEncoded(kids, CTA_PROTO_MAX, L4Policy(t.protonum));
    L4Table(t, t0.(protonum := t.protonum));
    hide ParseL4, TableOf, EncodeAll, L4Attrs, Complete, L4Policy, ParseUnder, Clean, Payload, ProtoAttr;
  }

  // ---------------------------------------------------------------- sizes

  lemma {:induction false} MemberSize(attrs: seq<Attr>, i: nat)
    requires i < |attrs|
    ensures Size(attrs[i]) <= SizeAll(attrs)
    decreases |attrs|
  {
    if i > 0 {
      MemberSize(attrs[1..], i - 1);
    }
  }

  /** The attributes of a message under 64 KiB have lengths that fit their fields. */
  lemma MembersSized(attrs: seq<Attr>)
    requires SizeAll(attrs) < 0x1_0000 && forall a :: a in attrs ==> 0 < a.kind < 0x4000
    ensures forall a :: a in attrs ==> Sized(a)
  {
    forall a | a in attrs
      ensures Sized(a)
    {
      var i :| 0 <= i < |attrs| && attrs[i] == a;
      MemberSize(attrs, i);
      EncodeParts(a);
    }
  }

  /** A nest is empty or holds at least one header. */
  lemma NestObeys(a: Attr, p: Policy)
    requires a.Nest? && (a.kind in p ==> p[a.kind] == Nested)
    ensures Obeys(p, a.kind, Payload(a))
  {
    if a.kids != [] {
      EncodeSize(a.kids[0]);
    }
  }

  // ---------------------------------------------------------------- whole tuples

  predicate ZonePart(attrs: seq<Attr>) {
    attrs == [] || (|attrs| == 1 && attrs[0].Leaf? && attrs[0].kind == CTA_TUPLE_ZONE && |attrs[0].data| == 2)
  }

  lemma TupleClean(t: Tuple, zoneAttrs: seq<Attr>)
    requires ZonePart(zoneAttrs) && SizeAll(TupleAttrs(t) + zoneAttrs) < 0x1_0000
    ensures Clean(TupleAttrs(t) + zoneAttrs, TUPLE_POLICY)
  {
    MembersSized(TupleAttrs(t) + zoneAttrs);
    NestObeys(IpAttr(t), TUPLE_POLICY);
    NestObeys(ProtoAttr(t), TUPLE_POLICY);
    hide Sized, Payload, IpAttr, ProtoAttr, SizeAll;
  }

  lemma TupleTable(t: Tuple, zoneAttrs: seq<Attr>)
    requires ZonePart(zoneAttrs)
    ensures var tb := TableOf(TupleAttrs(t) + zoneAttrs, CTA_TUPLE_MAX);
            && CTA_TUPLE_IP in tb && tb[CTA_TUPLE_IP] == Payload(IpAttr(t))
            && CTA_TUPLE_PROTO in tb && tb[CTA_TUPLE_PROTO] == Payload(ProtoAttr(t))
            && (CTA_TUPLE_ZONE in tb <==> zoneAttrs != [])
            && (zoneAttrs != [] ==> tb[CTA_TUPLE_ZONE] == Payload(zoneAttrs[0]))
  {
    TableConcat(TupleAttrs(t), zoneAttrs, CTA_TUPLE_MAX);
    TableOfTwo(IpAttr(t), ProtoAttr(t), CTA_TUPLE_MAX);
    assert zoneAttrs != [] ==> zoneAttrs[1..] == [];
  }

  /** A tuple nest is read back as the tuple; its zone attribute, if any, as the zone. */
  lemma TupleReads(t: Tuple, zoneAttrs: seq<Attr>, kind: nat, z: Zone)
    requires Complete(t) && (t.dir == if kind == CTA_TUPLE_REPLY then Reply else Original)
    requires ZonePart(zoneAttrs) && SizeAll(TupleAttrs(t) + zoneAttrs) < 0x1_0000
    ensures ParseTupleFilter(EncodeAll(TupleAttrs(t) + zoneAttrs), kind, t.l3num, z, ALL_FLAGS) ==
            if zoneAttrs == [] then Ok((t, z))
            else match ParseTupleZone(Payload(zoneAttrs[0]), kind, z)
              case Ok(z') => Ok((t, z'))
              case Err(e) => Err(e)
  {
    TupleClean(t, zoneAttrs);
    ParseUnderEncoded(TupleAttrs(t) + zoneAttrs, CTA_TUPLE_MAX, TUPLE_POLICY);
    TupleTable(t, zoneAttrs);
    var t0 := ZERO_TUPLE.(l3num := t.l3num);
    IpReads(t, t0);
    ProtoReads(t, t0.(src := t.src, dst := t.dst));
    hide EncodeAll, ParseTupleProto, ParseTupleIp, ParseUnder, Payload, IpAttr, ProtoAttr, TupleAttrs, Clean, TableOf,
         ParseTupleZone, SizeAll;
  }

  // ---------------------------------------------------------------- whole messages

  /** The shapes of the attributes of a dump message. */
  predicate Known(a: Attr) {
    match a
    case Leaf(k, data) =>
      || (k in {CTA_STATUS, CTA_TIMEOUT, CTA_MARK, CTA_USE, CTA_ID} && |data| == 4)
      || (k == CTA_ZONE && |data| == 2)
      || (k == CTA_LABELS && |data| <= 16)
    case Nest(k, _) =>
      k in {CTA_TUPLE_ORIG, CTA_TUPLE_REPLY, CTA_PROTOINFO, CTA_HELP, CTA_COUNTERS_ORIG, CTA_COUNTERS_REPLY,
            CTA_TUPLE_MASTER,
            CTA_SEQ_ADJ_ORIG, CTA_SEQ_ADJ_REPLY, CTA_SECCTX, CTA_TIMESTAMP, CTA_SYNPROXY}
  }

  lemma KnownObeys(a: Attr)
    requires Known(a)
    ensures 0 < a.kind < 0x4000 && Obeys(CT_POLICY, a.kind, Payload(a))
  {
    if a.Nest? {
      NestObeys(a, CT_POLICY);
    }
  }

  /** Neither a tuple of the connection nor its zone. */
  predicate Other(a: Attr) {
    Known(a) && a.kind != CTA_TUPLE_ORIG && a.kind != CTA_TUPLE_REPLY && a.kind != CTA_ZONE
  }

  predicate AllOther(attrs: seq<Attr>) {
    forall a :: a in attrs ==> Other(a)
  }

  lemma InfoIsOther(c: Conn, f: Flags)
    ensures AllOther(InfoAttrs(c, f))
  {
    assert AllOther(StatusAttrs(c)) && AllOther(MarkAttrs(c, true)) && AllOther(SecctxAttrs(c)) && AllOther(IdAttrs(c));
    assert AllOther(UseAttrs(c)) && AllOther(MasterAttrs(c)) && AllOther(TimeoutAttrs(c, false));
    assert AllOther(ProtoInfoAttrs(c, false, f)) by {
      hide TcpAttrs;
    }
    hide StatusAttrs, MarkAttrs, SecctxAttrs, IdAttrs, UseAttrs, MasterAttrs, TimeoutAttrs, ProtoInfoAttrs, Other;
  }

  lemma ExtIsOther(c: Conn)
    requires c.labels.Some? ==> |c.labels.value| <= 4
    ensures AllOther(ExtAttrs(c))
  {
    if c.labels.Some? {
      LabelLength(c.labels.value);
    }
    assert AllOther(LabelAttrs(c)) by {
      hide LabelBytes;
    }
    assert AllOther(AcctAttrs(c)) && AllOther(TstampAttrs(c)) && AllOther(HelpAttrs(c));
    assert AllOther(SeqAdjAttrs(c)) && AllOther(SynProxyAttrs(c));
    hide AcctAttrs, TstampAttrs, HelpAttrs, LabelAttrs, SeqAdjAttrs, SynProxyAttrs, Other;
  }

  /** What parsing gives back of a zone: the default zone's id means the default zone. */
  function Understood(z: Zone): Zone {
    if z.id == NF_CT_DEFAULT_ZONE_ID then DEFAULT_ZONE
    else DEFAULT_ZONE.(id := z.id, flags := NF_CT_ZONE_DIR_ORIG, dir := z.dir)
  }

  /** How many attributes of a dump message carry the zone. */
  function ZoneCount(c: Conn): nat {
    |ZoneAttrs(CTA_TUPLE_ZONE, c.info.zone, NF_CT_ZONE_DIR_ORIG)|
    + |ZoneAttrs(CTA_TUPLE_ZONE, c.info.zone, NF_CT_ZONE_DIR_REPL)|
    + |ZoneAttrs(CTA_ZONE, c.info.zone, NF_CT_DEFAULT_ZONE_DIR)|
  }

  /** The zone is written outside the tuples. */
  predicate ZoneAlone(z: Zone) {
    z.id != NF_CT_DEFAULT_ZONE_ID && z.dir == NF_CT_DEFAULT_ZONE_DIR
  }

  /** The attributes a request reads from a message that begins with the tuples and the zone. */
  lemma TuplesTable(c: Conn, rest: seq<Attr>)
    requires AllOther(rest) && SizeAll(TuplesAndZone(c) + rest) < 0x1_0000
    ensures Clean(TuplesAndZone(c) + rest, CT_POLICY)
    ensures var tb, z := TableOf(TuplesAndZone(c) + rest, CTA_MAX), c.info.zone;
            && CTA_TUPLE_ORIG in tb && CTA_TUPLE_REPLY in tb
            && tb[CTA_TUPLE_ORIG] ==
               EncodeAll(TupleAttrs(c.info.orig) + ZoneAttrs(CTA_TUPLE_ZONE, z, NF_CT_ZONE_DIR_ORIG))
            && tb[CTA_TUPLE_REPLY] ==
               EncodeAll(TupleAttrs(c.info.reply) + ZoneAttrs(CTA_TUPLE_ZONE, z, NF_CT_ZONE_DIR_REPL))
            && Lookup(tb, CTA_ZONE) == (if ZoneAlone(z) then Some(Be16(z.id)) else None)
  {
    FirstTable(c);
    hide Other, TuplesAndZone, SizeAll;
    DumpClean(TuplesAndZone(c), rest);
    TableConcat(TuplesAndZone(c), rest, CTA_MAX);
    RestTable(rest);
  }

  /** What a dump message has after the tuples and the zone. */
  function DumpRest(c: Conn, ext: bool, f: Flags): seq<Attr> {
    InfoAttrs(c, f) + if ext then ExtAttrs(c) else []
  }

  lemma DumpIsRest(c: Conn, ext: bool, f: Flags)
    requires c.labels.Some? ==> |c.labels.value| <= 4
    ensures DumpAttrs(c, ext, f) == TuplesAndZone(c) + DumpRest(c, ext, f) && AllOther(DumpRest(c, ext, f))
  {
    InfoIsOther(c, f);
    if ext {
      ExtIsOther(c);
    }
    hide InfoAttrs, ExtAttrs, Other, TuplesAndZone;
  }

  lemma RestTable(rest: seq<Attr>)
    requires AllOther(rest)
    ensures var tb := TableOf(rest, CTA_MAX); CTA_TUPLE_ORIG !in tb && CTA_TUPLE_REPLY !in tb && CTA_ZONE !in tb
  {
    TableKinds(rest, CTA_MAX, CTA_TUPLE_ORIG);
    TableKinds(rest, CTA_MAX, CTA_TUPLE_REPLY);
    TableKinds(rest, CTA_MAX, CTA_ZONE);
  }

  lemma DumpClean(first: seq<Attr>, rest: seq<Attr>)
    requires (forall a :: a in first ==> Known(a)) && AllOther(rest) && SizeAll(first + rest) < 0x1_0000
    ensures Clean(first + rest, CT_POLICY)
  {
    forall a | a in first + rest
      ensures 0 < a.kind < 0x4000 && Obeys(CT_POLICY, a.kind, Payload(a))
    {
      KnownObeys(a);
    }
    MembersSized(first + rest);
  }

  lemma FirstKnown(c: Conn)
    ensures forall a :: a in TuplesAndZone(c) ==> Known(a)
  {
    hide TupleAttrs;
  }

  lemma FirstTable(c: Conn)
    ensures forall a :: a in TuplesAndZone(c) ==> Known(a)
    ensures var tb, z := TableOf(TuplesAndZone(c), CTA_MAX), c.info.zone;
            && CTA_TUPLE_ORIG in tb && CTA_TUPLE_REPLY in tb
            && tb[CTA_TUPLE_ORIG] ==
               EncodeAll(TupleAttrs(c.info.orig) + ZoneAttrs(CTA_TUPLE_ZONE, z, NF_CT_ZONE_DIR_ORIG))
            && tb[CTA_TUPLE_REPLY] ==
               EncodeAll(TupleAttrs(c.info.reply) + ZoneAttrs(CTA_TUPLE_ZONE, z, NF_CT_ZONE_DIR_REPL))
            && Lookup(tb, CTA_ZONE) == (if ZoneAlone(z) then Some(Be16(z.id)) else None)
  {
    FirstKnown(c);
    hide Known;
    var t := TuplesAndZone(c);
    var zone := ZoneAttrs(CTA_ZONE, c.info.zone, NF_CT_DEFAULT_ZONE_DIR);
    assert t == [t[0], t[1]] + zone;
    TableConcat([t[0], t[1]], zone, CTA_MAX);
    TableOfTwo(t[0], t[1], CTA_MAX);
    assert zone != [] ==> zone[1..] == [];
    hide TupleAttrs, EncodeAll;
  }

  /** The parts of a message below 64 KiB are below 64 KiB. */
  lemma TupleNestsFit(c: Conn, rest: seq<Attr>)
    requires SizeAll(TuplesAndZone(c) + rest) < 0x1_0000
    ensures var z := c.info.zone;
            && SizeAll(TupleAttrs(c.info.orig) + ZoneAttrs(CTA_TUPLE_ZONE, z, NF_CT_ZONE_DIR_ORIG)) < 0x1_0000
            && SizeAll(TupleAttrs(c.info.reply) + ZoneAttrs(CTA_TUPLE_ZONE, z, NF_CT_ZONE_DIR_REPL)) < 0x1_0000
  {
    var d := TuplesAndZone(c) + rest;
    MemberSize(d, 0);
    MemberSize(d, 1);
    assert d[0] == TuplesAndZone(c)[0] && d[1] == TuplesAndZone(c)[1];
    hide TupleAttrs, SizeAll;
  }

  /** The zone a chain of the three places it can be written in is read as. */
  lemma ZoneReads(z: Zone) returns (z0: Zone, z1: Zone)
    requires z.dir in {NF_CT_ZONE_DIR_ORIG, NF_CT_ZONE_DIR_REPL, NF_CT_DEFAULT_ZONE_DIR}
    ensures z0 == ParseZone(if ZoneAlone(z) then Some(Be16(z.id)) else None)
    ensures var zo := ZoneAttrs(CTA_TUPLE_ZONE, z, NF_CT_ZONE_DIR_ORIG);
            ZonePart(zo) && Ok(z1) == if zo == [] then Ok(z0) else ParseTupleZone(Payload(zo[0]), CTA_TUPLE_ORIG, z0)
    ensures var zr := ZoneAttrs(CTA_TUPLE_ZONE, z, NF_CT_ZONE_DIR_REPL);
            && ZonePart(zr)
            && Ok(Understood(z)) == (if zr == [] then Ok(z1) else ParseTupleZone(Payload(zr[0]), CTA_TUPLE_REPLY, z1))
  {
    Be16Reads(z.id);
    z0 := if z.dir == NF_CT_DEFAULT_ZONE_DIR then Understood(z) else DEFAULT_ZONE;
    z1 := if z.dir == NF_CT_ZONE_DIR_ORIG then Understood(z) else z0;
  }

  lemma ZoneOnce(c: Conn)
    requires c.info.zone.dir in {NF_CT_ZONE_DIR_ORIG, NF_CT_ZONE_DIR_REPL, NF_CT_DEFAULT_ZONE_DIR}
    ensures ZoneCount(c) == if c.info.zone.id == NF_CT_DEFAULT_ZONE_ID then 0 else 1
  {
  }

  lemma ParseNewChain(message: seq<Byte>, u3: Byte, tb: Table, o: Tuple, r: Tuple, z1: Zone, z2: Zone)
    requires ParseUnder(message, CTA_MAX, CT_POLICY) == Ok(tb) && CTA_TUPLE_ORIG in tb && CTA_TUPLE_REPLY in tb
    requires ParseTupleFilter(tb[CTA_TUPLE_ORIG], CTA_TUPLE_ORIG, u3, ParseZone(Lookup(tb, CTA_ZONE)), ALL_FLAGS) ==
             Ok((o, z1))
    requires ParseTupleFilter(tb[CTA_TUPLE_REPLY], CTA_TUPLE_REPLY, u3, z1, ALL_FLAGS) == Ok((r, z2))
    ensures ParseNew(message, u3) == Ok((o, r, z2))
  {
    hide ParseUnder, ParseTupleFilter, ParseZone, Lookup;
  }

  /**
    The connections whose dump message a request can be made of: complete tuples of one family, in a zone with a
    direction.
   */
  predicate Dumpable(c: Conn) {
    && Complete(c.info.orig) && c.info.orig.dir == Original
    && Complete(c.info.reply) && c.info.reply.dir == Reply && c.info.reply.l3num == c.info.orig.l3num
    && c.info.zone.dir in {NF_CT_ZONE_DIR_ORIG, NF_CT_ZONE_DIR_REPL, NF_CT_DEFAULT_ZONE_DIR}
    && (c.labels.Some? ==> |c.labels.value| <= 4)
  }

  /**
    The round trip: a request made of a message that begins with the tuples and the zone names them; the zone is in
    at most one attribute, and in none when it is the default zone.
   */
  lemma TuplesThenParse(c: Conn, rest: seq<Attr>)
    requires Dumpable(c) && AllOther(rest) && SizeAll(TuplesAndZone(c) + rest) < 0x1_0000
    ensures ParseNew(EncodeAll(TuplesAndZone(c) + rest), c.info.orig.l3num) ==
            Ok((c.info.orig, c.info.reply, Understood(c.info.zone)))
    ensures ZoneCount(c) == if c.info.zone.id == NF_CT_DEFAULT_ZONE_ID then 0 else 1
  {
    hide EncodeAll, TuplesAndZone, TableOf, ParseUnder, Clean, ParseTupleFilter, TupleAttrs, SizeAll, Complete,
         ParseZone, ParseTupleZone, Understood, ZonePart, Payload, ParseNew, Lookup, AllOther;
    var z := c.info.zone;
    var zo, zr := ZoneAttrs(CTA_TUPLE_ZONE, z, NF_CT_ZONE_DIR_ORIG), ZoneAttrs(CTA_TUPLE_ZONE, z, NF_CT_ZONE_DIR_REPL);
    ZoneOnce(c);
    hide ZoneAttrs, ZoneCount;
    TuplesTable(c, rest);
    TupleNestsFit(c, rest);
    var d := TuplesAndZone(c) + rest;
    ParseUnderEncoded(d, CTA_MAX, CT_POLICY);
    var z0, z1 := ZoneReads(z);
    TupleReads(c.info.orig, zo, CTA_TUPLE_ORIG, z0);
    TupleReads(c.info.reply, zr, CTA_TUPLE_REPLY, z1);
    ParseNewChain(EncodeAll(d), c.info.orig.l3num, TableOf(d, CTA_MAX), c.info.orig, c.info.reply, z1, Understood(z));
  }

  /** Dump messages are such messages. */
  lemma DumpThenParse(c: Conn, ext: bool, f: Flags)
    requires Dumpable(c) && SizeAll(DumpAttrs(c, ext, f)) < 0x1_0000
    ensures ParseNew(EncodeAll(DumpAttrs(c, ext, f)), c.info.orig.l3num) ==
            Ok((c.info.orig, c.info.reply, Understood(c.info.zone)))
    ensures ZoneCount(c) == if c.info.zone.id == NF_CT_DEFAULT_ZONE_ID then 0 else 1
  {
    DumpIsRest(c, ext, f);
    hide EncodeAll, DumpAttrs, SizeAll, ParseNew, Understood, ZoneCount, TuplesAndZone, DumpRest, Complete;
    TuplesThenParse(c, DumpRest(c, ext, f));
  }

  // ---------------------------------------------------------------- requests in general

  /** The attributes of a tuple nest that was accepted. */
  function InTuple(cda: Table, kind: nat): Table
    requires kind in cda && ParseUnder(cda[kind], CTA_TUPLE_MAX, TUPLE_POLICY).Ok?
  {
    ParseUnder(cda[kind], CTA_TUPLE_MAX, TUPLE_POLICY).value
  }

  lemma TupleZones(attr: seq<Byte>, kind: nat, l3num: Byte, zone: Zone, f: TupleFlags)
    requires ParseTupleFilter(attr, kind, l3num, zone, f).Ok? && f.zone
    ensures ParseUnder(attr, CTA_TUPLE_MAX, TUPLE_POLICY).Ok?
    ensures var tb, z := ParseUnder(attr, CTA_TUPLE_MAX, TUPLE_POLICY).value,
                         ParseTupleFilter(attr, kind, l3num, zone, f).value.1;
            if 3 in tb then
              zone.id == 0 && |tb[3]| >= 2 && z.id == GetBe16(tb[3]) && z.dir == (if kind == 2 then 2 else 1)
            else z == zone
  {
    hide ParseUnder, ParseTupleIp, ParseTupleProto, GetBe16;
  }

  lemma ZoneIsThere(cda: Table)
    requires Within(cda, CT_POLICY)
    ensures 18 in cda ==> |cda[18]| >= 2
  {
    assert 18 in cda ==> Obeys(CT_POLICY, 18, cda[18]);
  }

  lemma NewParts(message: seq<Byte>, u3: Byte)
    requires ParseNew(message, u3).Ok?
    ensures ParseUnder(message, CTA_MAX, CT_POLICY).Ok?
    ensures var cda := ParseUnder(message, CTA_MAX, CT_POLICY).value;
            && 1 in cda && 2 in cda && (18 in cda ==> |cda[18]| >= 2)
            && var zone := ParseZone(Lookup(cda, 18));
            && var o := ParseTupleFilter(cda[1], 1, u3, zone, ALL_FLAGS);
            && o.Ok? && var r := ParseTupleFilter(cda[2], 2, u3, o.value.1, ALL_FLAGS);
            && r.Ok? && ParseNew(message, u3).value.2 == r.value.1
  {
    hide ParseUnder, ParseTupleFilter, ParseZone, Within;
    ZoneIsThere(ParseUnder(message, CTA_MAX, CT_POLICY).value);
  }

  /**
    Whatever a request to create a connection looks like, it names a zone other than the default one in at most one of
    the three places, and gets that one, in the direction of its place.
   */
  lemma OneZoneOnly(message: seq<Byte>, u3: Byte)
    requires ParseNew(message, u3).Ok?
    ensures ParseUnder(message, CTA_MAX, CT_POLICY).Ok?
    ensures var cda := ParseUnder(message, CTA_MAX, CT_POLICY).value;
            && 1 in cda && 2 in cda && (18 in cda ==> |cda[18]| >= 2)
            && ParseUnder(cda[1], CTA_TUPLE_MAX, TUPLE_POLICY).Ok?
            && ParseUnder(cda[2], CTA_TUPLE_MAX, TUPLE_POLICY).Ok?
            && var o, r, z := InTuple(cda, 1), InTuple(cda, 2), ParseNew(message, u3).value.2;
            && (3 in o ==> |o[3]| >= 2) && (3 in r ==> |r[3]| >= 2)
            && (18 in cda && GetBe16(cda[18]) != 0 ==> 3 !in o && 3 !in r && z.id == GetBe16(cda[18]) && z.dir == 3)
            && (3 in o && GetBe16(o[3]) != 0 ==> 3 !in r && z.id == GetBe16(o[3]) && z.dir == 1)
            && (3 in r ==> z.id == GetBe16(r[3]) && z.dir == 2)
            && (18 !in cda && 3 !in o && 3 !in r ==> z == DEFAULT_ZONE)
  {
    NewParts(message, u3);
    hide ParseUnder, ParseTupleFilter, GetBe16, Within, ParseNew;
    var cda := ParseUnder(message, CTA_MAX, CT_POLICY).value;
    var zone := ParseZone(Lookup(cda, 18));
    TupleZones(cda[1], 1, u3, zone, ALL_FLAGS);
    TupleZones(cda[2], 2, u3, ParseTupleFilter(cda[1], 1, u3, zone, ALL_FLAGS).value.1, ALL_FLAGS);
  }
}
