/**
  The parsers of tuples and zones, with the attribute policies they apply and
  the flags by which a filter asks for some fields only.
 */
module CtParse {
  import opened Conntrack
  import opened Netlink
  import opened CtMessage

  datatype Errno = EINVAL | ERANGE | EOPNOTSUPP

  datatype Result<+T> = Ok(value: T) | Err(error: Errno) {
    predicate IsFailure() { Err? }
    function PropagateFailure<U>(): Result<U>
      requires Err?
    {
      Err(error)
    }
    function Extract(): T
      requires Ok?
    {
      value
    }
  }

  /** CTA_FILTER_F_*: which fields of a tuple are asked for. */
  datatype TupleFlags = TupleFlags(ipSrc: bool, ipDst: bool, zone: bool, protoNum: bool, srcPort: bool, dstPort: bool,
                                   icmpType: bool, icmpCode: bool, icmpId: bool, icmp6Type: bool, icmp6Code: bool,
                                   icmp6Id: bool)

  const ALL_FLAGS := TupleFlags(true, true, true, true, true, true, true, true, true, true, true, true)
  const NO_TUPLE_FLAGS := TupleFlags(false, false, false, false, false, false, false, false, false, false, false, false)

  /** CTA_FILTER_F_ALL_CTA_PROTO. */
  predicate AnyProtoField(f: TupleFlags) {
    f.srcPort || f.dstPort || f.icmpType || f.icmpCode || f.icmpId || f.icmp6Type || f.icmp6Code || f.icmp6Id
  }

  // ---------------------------------------------------------------- policies

  datatype Rule = AtLeast(n: nat) | AtMost(n: nat) | Nested
  type Policy = map<nat, Rule>

  predicate Obeys(p: Policy, kind: nat, payload: seq<Byte>) {
    kind in p ==> match p[kind]
      case AtLeast(n) => |payload| >= n
      case AtMost(n) => |payload| <= n
      case Nested => payload == [] || |payload| >= NLA_HDRLEN
  }

  /** A table all of whose attributes obey a policy. */
  predicate Within(tb: Table, p: Policy) {
    forall k :: k in tb ==> Obeys(p, k, tb[k])
  }

  /** Reading attributes under a policy: the first one that breaks it ends the parse. */
  function ParseUnder(b: seq<Byte>, maxKind: nat, p: Policy): (r: Result<Table>)
    ensures r.Ok? ==> Within(r.value, p)
    decreases |b|
  {
    if |b| < NLA_HDRLEN then Ok(map[])
    else
      var len := GetLe16(b);
      if len < NLA_HDRLEN || len > |b| then Ok(map[])
      else
        var kind := GetLe16(b[2..]) % 0x4000;
        var rest := if Align4(len) >= |b| then [] else b[Align4(len)..];
        if 0 < kind <= maxKind then
          if !Obeys(p, kind, b[NLA_HDRLEN..len]) then Err(ERANGE)
          else
            var tb :- ParseUnder(rest, maxKind, p);
            Ok(map[kind := b[NLA_HDRLEN..len]] + tb)
        else ParseUnder(rest, maxKind, p)
  }

  const IP_POLICY: Policy := map[CTA_IP_V4_SRC := AtLeast(4), CTA_IP_V4_DST := AtLeast(4),
                                 CTA_IP_V6_SRC := AtLeast(16), CTA_IP_V6_DST := AtLeast(16)]
  const PROTO_POLICY: Policy := map[CTA_PROTO_NUM := AtLeast(1)]
  const TUPLE_POLICY: Policy := map[CTA_TUPLE_IP := Nested, CTA_TUPLE_PROTO := Nested, CTA_TUPLE_ZONE := AtLeast(2)]
  const CT_POLICY: Policy := map[CTA_TUPLE_ORIG := Nested, CTA_TUPLE_REPLY := Nested, CTA_STATUS := AtLeast(4),
                                 CTA_PROTOINFO := Nested, CTA_HELP := Nested, 6 := Nested, CTA_TIMEOUT := AtLeast(4),
                                 CTA_MARK := AtLeast(4), CTA_ID := AtLeast(4), 13 := Nested, CTA_TUPLE_MASTER := Nested,
                                 CTA_SEQ_ADJ_ORIG := Nested, CTA_SEQ_ADJ_REPLY := Nested, CTA_ZONE := AtLeast(2),
                                 21 := AtLeast(4), CTA_LABELS := AtMost(16), 23 := AtMost(16), CTA_FILTER := Nested,
                                 26 := AtLeast(4)]

  /** The policy of a protocol's tuple hook. */
  function L4Policy(p: Byte): Policy {
    if HasPorts(p) then map[CTA_PROTO_SRC_PORT := AtLeast(2), CTA_PROTO_DST_PORT := AtLeast(2)]
    else if p == IPPROTO_ICMP then
      map[CTA_PROTO_ICMP_TYPE := AtLeast(1), CTA_PROTO_ICMP_CODE := AtLeast(1), CTA_PROTO_ICMP_ID := AtLeast(2)]
    else if p == IPPROTO_ICMPV6 then
      map[CTA_PROTO_ICMPV6_TYPE := AtLeast(1), CTA_PROTO_ICMPV6_CODE := AtLeast(1), CTA_PROTO_ICMPV6_ID := AtLeast(2)]
    else map[]
  }

  // ---------------------------------------------------------------- tuples

  /** An address attribute, if it is asked for. */
  function ParseAddr(tb: Table, want: bool, kind: nat, v6: bool): Result<Addr> {
    if !want then Ok(NoAddr)
    else if kind !in tb then Err(EINVAL)
    else if v6 then if |tb[kind]| < 16 then Err(ERANGE) else Ok(V6(tb[kind][..16]))
    else if |tb[kind]| < 4 then Err(ERANGE) else Ok(V4(tb[kind][..4]))
  }

  function ParseTupleIp(attr: seq<Byte>, t: Tuple, f: TupleFlags): Result<Tuple> {
    var tb :- ParseUnder(attr, CTA_IP_MAX, IP_POLICY);
    if t.l3num == NFPROTO_IPV4 then
      var src :- ParseAddr(tb, f.ipSrc, CTA_IP_V4_SRC, false);
      var dst :- ParseAddr(tb, f.ipDst, CTA_IP_V4_DST, false);
      Ok(t.(src := src, dst := dst))
    else if t.l3num == NFPROTO_IPV6 then
      var src :- ParseAddr(tb, f.ipSrc, CTA_IP_V6_SRC, true);
      var dst :- ParseAddr(tb, f.ipDst, CTA_IP_V6_DST, true);
      Ok(t.(src := src, dst := dst))
    else Ok(t)
  }

  /** The ICMP types that have a reply type, and so can be tracked. */
  predicate Invertible(p: Byte, itype: Byte) {
    if p == IPPROTO_ICMP then itype == 0 || itype == 8 || 13 <= itype <= 18
    else itype == 128 || itype == 129 || itype == 139 || itype == 140
  }

  function ParsePorts(tb: Table, t: Tuple, f: TupleFlags): Result<Tuple> {
    if f.srcPort && CTA_PROTO_SRC_PORT !in tb then Err(EINVAL)
    else if f.dstPort && CTA_PROTO_DST_PORT !in tb then Err(EINVAL)
    else if (f.srcPort && |tb[CTA_PROTO_SRC_PORT]| < 2) || (f.dstPort && |tb[CTA_PROTO_DST_PORT]| < 2) then Err(ERANGE)
    else Ok(t.(l4src := if f.srcPort then SrcPort(GetBe16(tb[CTA_PROTO_SRC_PORT])) else t.l4src,
               l4dst := if f.dstPort then DstPort(GetBe16(tb[CTA_PROTO_DST_PORT])) else t.l4dst))
  }

  /** The ICMP hooks: type, code and identifier, each if it is asked for. */
  function ParseIcmp(tb: Table, t: Tuple, wantType: bool, wantCode: bool, wantId: bool, kType: nat, kCode: nat,
                     kId: nat): Result<Tuple> {
    if wantType && kType !in tb then Err(EINVAL)
    else if wantType && |tb[kType]| < 1 then Err(ERANGE)
    else if wantType && !Invertible(t.protonum, tb[kType][0]) then Err(EINVAL)
    else if wantCode && kCode !in tb then Err(EINVAL)
    else if wantCode && |tb[kCode]| < 1 then Err(ERANGE)
    else if wantId && kId !in tb then Err(EINVAL)
    else if wantId && |tb[kId]| < 2 then Err(ERANGE)
    else Ok(t.(l4src := if wantId then IcmpId(GetBe16(tb[kId])) else t.l4src,
               l4dst := if wantType || wantCode
                        then IcmpTypeCode(if wantType then tb[kType][0] else 0, if wantCode then tb[kCode][0] else 0)
                        else t.l4dst))
  }

  function ParseL4(tb: Table, t: Tuple, f: TupleFlags): Result<Tuple> {
    if HasPorts(t.protonum) then ParsePorts(tb, t, f)
    else if t.protonum == IPPROTO_ICMP then
      ParseIcmp(tb, t, f.icmpType, f.icmpCode, f.icmpId, CTA_PROTO_ICMP_TYPE, CTA_PROTO_ICMP_CODE, CTA_PROTO_ICMP_ID)
    else if t.protonum == IPPROTO_ICMPV6 then
      ParseIcmp(tb, t, f.icmp6Type, f.icmp6Code, f.icmp6Id, CTA_PROTO_ICMPV6_TYPE, CTA_PROTO_ICMPV6_CODE,
                CTA_PROTO_ICMPV6_ID)
    else Ok(t)
  }

  function ParseTupleProto(attr: seq<Byte>, t: Tuple, f: TupleFlags): Result<Tuple> {
    var tb :- ParseUnder(attr, CTA_PROTO_MAX, PROTO_POLICY);
    if !f.protoNum then Ok(t)
    else if CTA_PROTO_NUM !in tb then Err(EINVAL)
    else if |tb[CTA_PROTO_NUM]| < 1 then Err(ERANGE)
    else
      var t' := t.(protonum := tb[CTA_PROTO_NUM][0]);
      var checked :- ParseUnder(attr, CTA_PROTO_MAX, L4Policy(t'.protonum));
      ParseL4(tb, t', f)
  }

  /** ctnetlink_parse_zone: no attribute is the default zone; an attribute marks the zone as asked for. */
  function ParseZone(attr: Option<seq<Byte>>): Zone {
    match attr
    case None => DEFAULT_ZONE
    case Some(b) => if |b| < 2 then DEFAULT_ZONE else DEFAULT_ZONE.(id := GetBe16(b), flags := NF_CT_ZONE_DIR_ORIG)
  }

  /** ctnetlink_parse_tuple_zone: only one zone may be given. */
  function ParseTupleZone(b: seq<Byte>, kind: nat, z: Zone): Result<Zone> {
    if z.id != NF_CT_DEFAULT_ZONE_ID then Err(EINVAL)
    else Ok(ParseZone(Some(b)).(dir := if kind == CTA_TUPLE_REPLY then NF_CT_ZONE_DIR_REPL else NF_CT_ZONE_DIR_ORIG))
  }

  function Lookup(tb: Table, kind: nat): Option<seq<Byte>> {
    if kind in tb then Some(tb[kind]) else None
  }

  /** ctnetlink_parse_tuple_filter on the nest `attr` of kind `kind`; the zone is passed along. */
  function ParseTupleFilter(attr: seq<Byte>, kind: nat, l3num: Byte, zone: Zone, f: TupleFlags): Result<(Tuple, Zone)> {
    var tb :- ParseUnder(attr, CTA_TUPLE_MAX, TUPLE_POLICY);
    if l3num != NFPROTO_IPV4 && l3num != NFPROTO_IPV6 then Err(EOPNOTSUPP)
    else
      var t := ZERO_TUPLE.(l3num := l3num);
      var t1 :- (if !f.ipSrc && !f.ipDst then Ok(t)
                 else if CTA_TUPLE_IP !in tb then Err(EINVAL)
                 else ParseTupleIp(tb[CTA_TUPLE_IP], t, f));
      var t2 :- (if f.protoNum then
                   if CTA_TUPLE_PROTO !in tb then Err(EINVAL) else ParseTupleProto(tb[CTA_TUPLE_PROTO], t1, f)
                 else if AnyProtoField(f) then Err(EINVAL)
                 else Ok(t1));
      var z :- (if f.zone && CTA_TUPLE_ZONE in tb then ParseTupleZone(tb[CTA_TUPLE_ZONE], kind, zone) else Ok(zone));
      Ok((t2.(dir := if kind == CTA_TUPLE_REPLY then Reply else Original), z))
  }

  /** The start of ctnetlink_new_conntrack on a request that names both directions. */
  function ParseNew(message: seq<Byte>, u3: Byte): Result<(Tuple, Tuple, Zone)> {
    var cda :- ParseUnder(message, CTA_MAX, CT_POLICY);
    var zone := ParseZone(Lookup(cda, CTA_ZONE));
    if CTA_TUPLE_ORIG !in cda || CTA_TUPLE_REPLY !in cda then Err(EINVAL)
    else
      var o :- ParseTupleFilter(cda[CTA_TUPLE_ORIG], CTA_TUPLE_ORIG, u3, zone, ALL_FLAGS);
      var r :- ParseTupleFilter(cda[CTA_TUPLE_REPLY], CTA_TUPLE_REPLY, u3, o.1, ALL_FLAGS);
      Ok((o.0, r.0, r.1))
  }
}
