/**
  Filters of dumps and flushes: how a request becomes a filter, and how a
  filter is evaluated on a connection. A comparison of two union members says
  explicitly whether both sides were written as that member.
 */
module Filters {
  import opened Conntrack
  import opened Netlink
  import opened CtMessage
  import opened CtParse

  const CTA_MARK_MASK := 21
  const CTA_STATUS_MASK := 26

  const CTA_FILTER_ORIG_FLAGS := 1
  const CTA_FILTER_REPLY_FLAGS := 2
  const CTA_FILTER_MAX := 2
  const CTA_FILTER_F_MAX: U32 := 4096

  /** A value to compare with, and the bits that count. */
  datatype Masked = Masked(val: U32, mask: U32)

  datatype Filter = Filter(family: Byte, origFlags: TupleFlags, replyFlags: TupleFlags, orig: Tuple, reply: Tuple,
                           zone: Zone, mark: Masked, status: Masked)

  // ---------------------------------------------------------------- from a request to a filter

  /** Strict parsing: unknown kinds, wrong lengths and trailing bytes are errors. */
  function ParseStrict(b: seq<Byte>, maxKind: nat): (r: Result<Table>)
    ensures r.Ok? ==> forall k :: k in r.value ==> |r.value[k]| == 4
    decreases |b|
  {
    if b == [] then Ok(map[])
    else if |b| < NLA_HDRLEN then Err(EINVAL)
    else
      var len := GetLe16(b);
      if len < NLA_HDRLEN || len > |b| then Err(EINVAL)
      else
        var kind := GetLe16(b[2..]) % 0x4000;
        if kind == 0 || kind > maxKind || len != NLA_HDRLEN + 4 then Err(EINVAL)
        else
          var tb :- ParseStrict(if Align4(len) >= |b| then [] else b[Align4(len)..], maxKind);
          Ok(map[kind := b[NLA_HDRLEN..len]] + tb)
  }

  function FlagsOf(n: U32): Result<TupleFlags> {
    if n >= CTA_FILTER_F_MAX then Err(EOPNOTSUPP)
    else Ok(TupleFlags(Bit(n, 0), Bit(n, 1), Bit(n, 2), Bit(n, 3), Bit(n, 4), Bit(n, 5),
                       Bit(n, 6), Bit(n, 7), Bit(n, 8), Bit(n, 9), Bit(n, 10), Bit(n, 11)))
  }

  /** The word with the given bits, the lowest first. */
  function Word(bits: seq<bool>): nat {
    if bits == [] then 0 else (if bits[0] then 1 else 0) + 2 * Word(bits[1..])
  }

  function Power(k: nat): nat {
    if k == 0 then 1 else 2 * Power(k - 1)
  }

  lemma {:induction false} WordBits(bits: seq<bool>, k: nat)
    requires k < |bits|
    ensures Bit(Word(bits), k) <==> bits[k]
    decreases k
  {
    assert Word(bits) / 2 == Word(bits[1..]);
    if k > 0 {
      WordBits(bits[1..], k - 1);
    }
  }

  lemma {:induction false} WordBound(bits: seq<bool>)
    ensures Word(bits) < Power(|bits|)
  {
    if bits != [] {
      WordBound(bits[1..]);
    }
  }

  function FlagBits(f: TupleFlags): (bits: seq<bool>)
    ensures |bits| == 12
  {
    [f.ipSrc, f.ipDst, f.zone, f.protoNum, f.srcPort, f.dstPort,
     f.icmpType, f.icmpCode, f.icmpId, f.icmp6Type, f.icmp6Code, f.icmp6Id]
  }

  /** The word in which a request asks for these fields: CTA_FILTER_F_*. */
  function FlagWord(f: TupleFlags): (n: U32)
    ensures n < CTA_FILTER_F_MAX
  {
    WordBound(FlagBits(f));
    assert Power(12) == 4096;
    Word(FlagBits(f))
  }

  function One(b: bool): nat {
    if b then 1 else 0
  }

  lemma WordStep(bits: seq<bool>, k: nat)
    requires k < |bits|
    ensures Word(bits[k..]) == One(bits[k]) + 2 * Word(bits[k + 1..])
  {
    assert bits[k..][1..] == bits[k + 1..];
  }

  lemma WordSteps(bits: seq<bool>, k: nat)
    requires k + 4 <= |bits|
    ensures Word(bits[k..]) == One(bits[k]) + 2 * One(bits[k + 1]) + 4 * One(bits[k + 2])
                               + 8 * One(bits[k + 3]) + 16 * Word(bits[k + 4..])
  {
    WordStep(bits, k);
    WordStep(bits, k + 1);
    WordStep(bits, k + 2);
    WordStep(bits, k + 3);
    hide Word, One;
  }

  lemma Ends(bits: seq<bool>)
    ensures bits[0..] == bits && Word(bits[|bits|..]) == 0
  {
  }

  lemma TwelveBits(bits: seq<bool>)
    requires |bits| == 12
    ensures Word(bits) ==
            One(bits[0]) + 2 * One(bits[1]) + 4 * One(bits[2]) + 8 * One(bits[3])
            + 16 * One(bits[4]) + 32 * One(bits[5]) + 64 * One(bits[6]) + 128 * One(bits[7])
            + 256 * One(bits[8]) + 512 * One(bits[9]) + 1024 * One(bits[10]) + 2048 * One(bits[11])
  {
    hide Word, One;
    Ends(bits);
    WordSteps(bits, 0);
    WordSteps(bits, 4);
    WordSteps(bits, 8);
  }

  lemma FirstFields(f: TupleFlags)
    ensures var b := FlagBits(f);
            && One(b[0]) == One(f.ipSrc) && One(b[1]) == One(f.ipDst) && One(b[2]) == One(f.zone)
            && One(b[3]) == One(f.protoNum) && One(b[4]) == One(f.srcPort) && One(b[5]) == One(f.dstPort)
  {
    hide One;
  }

  lemma LastFields(f: TupleFlags)
    ensures var b := FlagBits(f);
            && One(b[6]) == One(f.icmpType) && One(b[7]) == One(f.icmpCode) && One(b[8]) == One(f.icmpId)
            && One(b[9]) == One(f.icmp6Type) && One(b[10]) == One(f.icmp6Code) && One(b[11]) == One(f.icmp6Id)
  {
    hide One;
  }

  /** The weight of each field in that word. */
  lemma FlagWeights(f: TupleFlags)
    ensures FlagWord(f) ==
            One(f.ipSrc) + 2 * One(f.ipDst) + 4 * One(f.zone) + 8 * One(f.protoNum) + 16 * One(f.srcPort)
            + 32 * One(f.dstPort) + 64 * One(f.icmpType) + 128 * One(f.icmpCode) + 256 * One(f.icmpId)
            + 512 * One(f.icmp6Type) + 1024 * One(f.icmp6Code) + 2048 * One(f.icmp6Id)
  {
    hide Word, One, FlagBits;
    FirstFields(f);
    LastFields(f);
    TwelveBits(FlagBits(f));
  }

  lemma FlagWordReads(f: TupleFlags)
    ensures FlagsOf(FlagWord(f)) == Ok(f)
  {
    var bits := FlagBits(f);
    hide Word, Bit;
    forall k | 0 <= k < 12
      ensures Bit(Word(bits), k) <==> bits[k]
    {
      WordBits(bits, k);
    }
  }

  function FlagsAttr(tb: Table, kind: nat): Result<TupleFlags>
    requires kind in tb ==> |tb[kind]| == 4
  {
    if kind in tb then FlagsOf(GetLe32(tb[kind])) else Ok(NO_TUPLE_FLAGS)
  }

  /** ctnetlink_parse_filter. */
  function ParseFilter(attr: seq<Byte>): Result<(TupleFlags, TupleFlags)> {
    var tb :- ParseStrict(attr, CTA_FILTER_MAX);
    var orig :- FlagsAttr(tb, CTA_FILTER_ORIG_FLAGS);
    var reply :- FlagsAttr(tb, CTA_FILTER_REPLY_FLAGS);
    Ok((orig, reply))
  }

  function ParseMark(cda: Table): Result<Masked>
    requires Within(cda, CT_POLICY)
  {
    if CTA_MARK in cda then
      Ok(Masked(GetBe32(cda[CTA_MARK]), if CTA_MARK_MASK in cda then GetBe32(cda[CTA_MARK_MASK]) else 0xffff_ffff))
    else if CTA_MARK_MASK in cda then Err(EINVAL)
    else Ok(Masked(0, 0))
  }

  function ParseStatus(cda: Table): Result<Masked>
    requires Within(cda, CT_POLICY)
  {
    if CTA_STATUS in cda then
      var val := GetBe32(cda[CTA_STATUS]);
      var mask := if CTA_STATUS_MASK in cda then GetBe32(cda[CTA_STATUS_MASK]) else val;
      if mask == 0 then Err(EINVAL) else Ok(Masked(val, mask))
    else if CTA_STATUS_MASK in cda then Err(EINVAL)
    else Ok(Masked(0, 0))
  }

  /** One direction of the filter: nothing is parsed unless some field is asked for. */
  function ParseSide(cda: Table, kind: nat, family: Byte, zone: Zone, f: TupleFlags): Result<(Tuple, Zone)> {
    if f == NO_TUPLE_FLAGS then Ok((ZERO_TUPLE, zone))
    else if kind !in cda then Err(EINVAL)
    else ParseTupleFilter(cda[kind], kind, family, zone, f)
  }

  /** ctnetlink_alloc_filter, short of running out of memory. */
  function AllocFilter(cda: Table, family: Byte): Result<Filter>
    requires Within(cda, CT_POLICY)
  {
    var mark :- ParseMark(cda);
    var status :- ParseStatus(cda);
    var zone := ParseZone(Lookup(cda, CTA_ZONE));
    if CTA_FILTER !in cda then
      Ok(Filter(family, NO_TUPLE_FLAGS, NO_TUPLE_FLAGS, ZERO_TUPLE, ZERO_TUPLE, zone, mark, status))
    else
      var flags :- ParseFilter(cda[CTA_FILTER]);
      var o :- ParseSide(cda, CTA_TUPLE_ORIG, family, zone, flags.0);
      var r :- ParseSide(cda, CTA_TUPLE_REPLY, family, o.1, flags.1);
      Ok(Filter(family, flags.0, flags.1, o.0, r.0, r.1, mark, status))
  }

  predicate NeedsFilter(family: Byte, cda: Table) {
    family != 0 || CTA_MARK in cda || CTA_FILTER in cda || CTA_STATUS in cda || CTA_ZONE in cda
  }

  /** ctnetlink_start: the filter of a dump, or none. */
  function StartFilter(cda: Table, family: Byte): Result<Option<Filter>>
    requires Within(cda, CT_POLICY)
  {
    if !NeedsFilter(family, cda) then Ok(None)
    else
      var f :- AllocFilter(cda, family);
      Ok(Some(f))
  }

  /** ctnetlink_flush_conntrack up to the walk: tuples are not supported. */
  function FlushFilter(cda: Table, family: Byte): Result<Option<Filter>>
    requires Within(cda, CT_POLICY)
  {
    if NeedsFilter(family, cda) && CTA_FILTER in cda then Err(EOPNOTSUPP) else StartFilter(cda, family)
  }

  // ---------------------------------------------------------------- evaluating a filter

  /** The outcome of a test; Fault is a comparison of union members that were not both written. */
  datatype Test = Same | Differ | Fault

  function Both(a: Test, b: Test): Test {
    if a == Same then b else a
  }

  function Compare(equal: bool): Test {
    if equal then Same else Differ
  }

  function V4Test(want: bool, a: Addr, b: Addr): Test {
    if !want then Same else if !a.V4? || !b.V4? then Fault else Compare(a.bytes == b.bytes)
  }

  /** As the code has it: the addresses must NOT be equal. */
  function V6Test(want: bool, a: Addr, b: Addr): Test {
    if !want then Same else if !a.V6? || !b.V6? then Fault else Compare(a.bytes != b.bytes)
  }

  function AddrTests(f: Tuple, t: Tuple, flags: TupleFlags, family: Byte): Test {
    if family == NFPROTO_IPV4 then Both(V4Test(flags.ipSrc, f.src, t.src), V4Test(flags.ipDst, f.dst, t.dst))
    else if family == NFPROTO_IPV6 then Both(V6Test(flags.ipSrc, f.src, t.src), V6Test(flags.ipDst, f.dst, t.dst))
    else Same
  }

  function PortTests(f: Tuple, t: Tuple, flags: TupleFlags): Test {
    Both(if !flags.srcPort then Same
         else if !f.l4src.SrcPort? || !t.l4src.SrcPort? then Fault
         else Compare(f.l4src == t.l4src),
         if !flags.dstPort then Same
         else if !f.l4dst.DstPort? || !t.l4dst.DstPort? then Fault
         else Compare(f.l4dst == t.l4dst))
  }

  function IcmpTests(f: Tuple, t: Tuple, wantType: bool, wantCode: bool, wantId: bool): Test {
    var written := f.l4dst.IcmpTypeCode? && t.l4dst.IcmpTypeCode?;
    Both(if !wantType then Same else if !written then Fault else Compare(f.l4dst.itype == t.l4dst.itype),
         Both(if !wantCode then Same else if !written then Fault else Compare(f.l4dst.code == t.l4dst.code),
              if !wantId then Same
              else if !f.l4src.IcmpId? || !t.l4src.IcmpId? then Fault
              else Compare(f.l4src == t.l4src)))
  }

  function L4Tests(f: Tuple, t: Tuple, flags: TupleFlags): Test {
    if t.protonum == IPPROTO_TCP || t.protonum == IPPROTO_UDP then PortTests(f, t, flags)
    else if t.protonum == IPPROTO_ICMP then IcmpTests(f, t, flags.icmpType, flags.icmpCode, flags.icmpId)
    else if t.protonum == IPPROTO_ICMPV6 then IcmpTests(f, t, flags.icmp6Type, flags.icmp6Code, flags.icmp6Id)
    else Same
  }

  /** ctnetlink_filter_match_tuple: the tests run in order until one fails. */
  function MatchTuple(f: Tuple, t: Tuple, flags: TupleFlags, family: Byte): Test {
    Both(AddrTests(f, t, flags, family),
         Both(Compare(!flags.protoNum || f.protonum == t.protonum), L4Tests(f, t, flags)))
  }

  /** nf_ct_zone_id: a zone counts for the original direction only if it has that direction. */
  function OrigZone(i: Info): U16 {
    if HasBit(i.zone.dir, NF_CT_ZONE_DIR_ORIG) then i.zone.id else NF_CT_DEFAULT_ZONE_ID
  }

  /** ctnetlink_filter_match. */
  function Match(filter: Option<Filter>, i: Info): Test {
    match filter
    case None => Same
    case Some(f) =>
      Both(Compare(f.family == 0 || i.orig.l3num == f.family),
      Both(if f.origFlags == NO_TUPLE_FLAGS then Same else MatchTuple(f.orig, i.orig, f.origFlags, f.family),
      Both(if f.replyFlags == NO_TUPLE_FLAGS then Same else MatchTuple(f.reply, i.reply, f.replyFlags, f.family),
      Both(Compare(!HasBit(f.zone.flags, NF_CT_ZONE_DIR_ORIG) || OrigZone(i) == f.zone.id),
      Both(Compare(And32(i.mark, f.mark.mask) == f.mark.val),
           Compare(And32(i.status, f.status.mask) == f.status.val))))))
  }

  predicate Passes(filter: Option<Filter>, i: Info) {
    Match(filter, i) == Same
  }

  // ---------------------------------------------------------------- no union is misread

  /** An address of a family, with the length it has there. */
  predicate AddrOf(a: Addr, l3num: Byte) {
    && (l3num == NFPROTO_IPV4 ==> a.V4? && |a.bytes| == 4)
    && (l3num == NFPROTO_IPV6 ==> a.V6? && |a.bytes| == 16)
  }

  /** The union members of a tuple are those of its family and its protocol. */
  predicate Typed(t: Tuple) {
    && AddrOf(t.src, t.l3num) && AddrOf(t.dst, t.l3num)
    && (HasPorts(t.protonum) ==> t.l4src.SrcPort? && t.l4dst.DstPort?)
    && (t.protonum == IPPROTO_ICMP || t.protonum == IPPROTO_ICMPV6 ==> t.l4src.IcmpId? && t.l4dst.IcmpTypeCode?)
  }

  /** What a connection always is: both tuples typed, and of one family. */
  predicate TypedInfo(i: Info) {
    Typed(i.orig) && Typed(i.reply) && i.reply.l3num == i.orig.l3num
  }

  /** The members written in a filter tuple are those its flags ask for. */
  predicate Filled(f: Tuple, flags: TupleFlags) {
    && (f.l3num == NFPROTO_IPV4 || f.l3num == NFPROTO_IPV6)
    && (AnyProtoField(flags) ==> flags.protoNum)
    && (flags.ipSrc ==> AddrOf(f.src, f.l3num))
    && (flags.ipDst ==> AddrOf(f.dst, f.l3num))
    && (flags.protoNum ==> FilledL4(f, flags))
  }

  predicate FilledL4(f: Tuple, flags: TupleFlags) {
    if HasPorts(f.protonum) then (flags.srcPort ==> f.l4src.SrcPort?) && (flags.dstPort ==> f.l4dst.DstPort?)
    else if f.protonum == IPPROTO_ICMP then
      (flags.icmpType || flags.icmpCode ==> f.l4dst.IcmpTypeCode?) && (flags.icmpId ==> f.l4src.IcmpId?)
    else if f.protonum == IPPROTO_ICMPV6 then
      (flags.icmp6Type || flags.icmp6Code ==> f.l4dst.IcmpTypeCode?) && (flags.icmp6Id ==> f.l4src.IcmpId?)
    else true
  }

  lemma ParseIcmpFills(tb: Table, t: Tuple, wantType: bool, wantCode: bool, wantId: bool, kType: nat, kCode: nat,
                       kId: nat)
    requires ParseIcmp(tb, t, wantType, wantCode, wantId, kType, kCode, kId).Ok?
    ensures var r := ParseIcmp(tb, t, wantType, wantCode, wantId, kType, kCode, kId).value;
            && r == t.(l4src := r.l4src, l4dst := r.l4dst)
            && (wantType || wantCode ==> r.l4dst.IcmpTypeCode?) && (wantId ==> r.l4src.IcmpId?)
  {
  }

  lemma ParsePortsFills(tb: Table, t: Tuple, f: TupleFlags)
    requires ParsePorts(tb, t, f).Ok?
    ensures var r := ParsePorts(tb, t, f).value;
            && r == t.(l4src := r.l4src, l4dst := r.l4dst)
            && (f.srcPort ==> r.l4src.SrcPort?) && (f.dstPort ==> r.l4dst.DstPort?)
  {
  }

  lemma ParseL4Fills(tb: Table, t: Tuple, f: TupleFlags)
    requires ParseL4(tb, t, f).Ok?
    ensures var r := ParseL4(tb, t, f).value;
            r == t.(l4src := r.l4src, l4dst := r.l4dst) && FilledL4(r, f)
  {
    hide ParseIcmp, ParsePorts;
    if HasPorts(t.protonum) {
      ParsePortsFills(tb, t, f);
    } else if t.protonum == IPPROTO_ICMP {
      ParseIcmpFills(tb, t, f.icmpType, f.icmpCode, f.icmpId, CTA_PROTO_ICMP_TYPE, CTA_PROTO_ICMP_CODE,
                     CTA_PROTO_ICMP_ID);
    } else if t.protonum == IPPROTO_ICMPV6 {
      ParseIcmpFills(tb, t, f.icmp6Type, f.icmp6Code, f.icmp6Id, CTA_PROTO_ICMPV6_TYPE, CTA_PROTO_ICMPV6_CODE,
                     CTA_PROTO_ICMPV6_ID);
    }
  }

  function OnlyAddresses(f: TupleFlags): TupleFlags {
    NO_TUPLE_FLAGS.(ipSrc := f.ipSrc, ipDst := f.ipDst)
  }

  lemma ParseProtoFills(attr: seq<Byte>, t: Tuple, f: TupleFlags)
    requires ParseTupleProto(attr, t, f).Ok? && f.protoNum && Filled(t, OnlyAddresses(f))
    ensures Filled(ParseTupleProto(attr, t, f).value, f)
    ensures ParseTupleProto(attr, t, f).value.l3num == t.l3num
  {
    var tb := ParseUnder(attr, CTA_PROTO_MAX, PROTO_POLICY).value;
    ParseL4Fills(tb, t.(protonum := tb[CTA_PROTO_NUM][0]), f);
    hide ParseUnder, L4Policy, ParseL4, FilledL4;
  }

  lemma ParseIpFills(attr: seq<Byte>, t: Tuple, f: TupleFlags)
    requires ParseTupleIp(attr, t, f).Ok? && (t.l3num == NFPROTO_IPV4 || t.l3num == NFPROTO_IPV6)
    ensures Filled(ParseTupleIp(attr, t, f).value, OnlyAddresses(f)) && ParseTupleIp(attr, t, f).value.l3num == t.l3num
  {
    hide ParseUnder;
  }

  /** What the parser returns is filled as its flags ask. */
  lemma ParsedFills(attr: seq<Byte>, kind: nat, l3num: Byte, zone: Zone, f: TupleFlags)
    requires ParseTupleFilter(attr, kind, l3num, zone, f).Ok?
    ensures var t := ParseTupleFilter(attr, kind, l3num, zone, f).value.0; Filled(t, f) && t.l3num == l3num
  {
    hide ParseUnder, ParseTupleProto, ParseTupleIp, ParseTupleZone;
    var tb := ParseUnder(attr, CTA_TUPLE_MAX, TUPLE_POLICY).value;
    var t := ZERO_TUPLE.(l3num := l3num);
    var t1 := t;
    if f.ipSrc || f.ipDst {
      t1 := ParseTupleIp(tb[CTA_TUPLE_IP], t, f).value;
      ParseIpFills(tb[CTA_TUPLE_IP], t, f);
    }
    if f.protoNum {
      ParseProtoFills(tb[CTA_TUPLE_PROTO], t1, f);
    }
  }

  lemma MatchTupleTyped(f: Tuple, t: Tuple, flags: TupleFlags)
    requires Filled(f, flags) && Typed(t) && t.l3num == f.l3num
    ensures MatchTuple(f, t, flags, f.l3num) != Fault
  {
  }

  /**
    No filter that a request can produce ever compares union members of different kinds: an address only
    with an address of the same family, a port or an ICMP field only under the same protocol number.
   */
  lemma NeverFaults(cda: Table, family: Byte, i: Info)
    requires Within(cda, CT_POLICY) && StartFilter(cda, family).Ok? && TypedInfo(i)
    ensures Match(StartFilter(cda, family).value, i) != Fault
  {
    match StartFilter(cda, family).value
    case None =>
    case Some(f) =>
      AllocFills(cda, family);
      hide StartFilter, AllocFilter, MatchTuple, Filled, Typed;
      if i.orig.l3num == f.family {
        if f.origFlags != NO_TUPLE_FLAGS {
          MatchTupleTyped(f.orig, i.orig, f.origFlags);
        }
        if f.replyFlags != NO_TUPLE_FLAGS {
          MatchTupleTyped(f.reply, i.reply, f.replyFlags);
        }
      }
  }

  lemma AllocFills(cda: Table, family: Byte)
    requires Within(cda, CT_POLICY) && AllocFilter(cda, family).Ok?
    ensures var f := AllocFilter(cda, family).value;
            && f.family == family
            && (f.origFlags != NO_TUPLE_FLAGS ==> Filled(f.orig, f.origFlags) && f.orig.l3num == family)
            && (f.replyFlags != NO_TUPLE_FLAGS ==> Filled(f.reply, f.replyFlags) && f.reply.l3num == family)
            && (f.origFlags != NO_TUPLE_FLAGS || f.replyFlags != NO_TUPLE_FLAGS ==>
                  family == NFPROTO_IPV4 || family == NFPROTO_IPV6)
  {
    var f := AllocFilter(cda, family).value;
    if CTA_FILTER in cda {
      var zone := ParseZone(Lookup(cda, CTA_ZONE));
      if f.origFlags != NO_TUPLE_FLAGS {
        ParsedFills(cda[CTA_TUPLE_ORIG], CTA_TUPLE_ORIG, family, zone, f.origFlags);
      }
      var z := ParseSide(cda, CTA_TUPLE_ORIG, family, zone, f.origFlags).value.1;
      if f.replyFlags != NO_TUPLE_FLAGS {
        ParsedFills(cda[CTA_TUPLE_REPLY], CTA_TUPLE_REPLY, family, z, f.replyFlags);
      }
      hide ParseTupleFilter, ParseFilter, Filled;
    }
  }

  // ---------------------------------------------------------------- what a filter means

  /** What the flags ask for: each field that is asked for and belongs to the protocol is equal. */
  predicate Agrees(f: Tuple, t: Tuple, flags: TupleFlags) {
    && (flags.ipSrc ==> f.src == t.src)
    && (flags.ipDst ==> f.dst == t.dst)
    && (flags.protoNum ==> f.protonum == t.protonum)
    && L4Agrees(f, t, flags)
  }

  predicate L4Agrees(f: Tuple, t: Tuple, flags: TupleFlags) {
    if HasPorts(t.protonum) then (flags.srcPort ==> f.l4src == t.l4src) && (flags.dstPort ==> f.l4dst == t.l4dst)
    else if t.protonum == IPPROTO_ICMP then IcmpAgrees(f, t, flags.icmpType, flags.icmpCode, flags.icmpId)
    else if t.protonum == IPPROTO_ICMPV6 then IcmpAgrees(f, t, flags.icmp6Type, flags.icmp6Code, flags.icmp6Id)
    else true
  }

  predicate IcmpAgrees(f: Tuple, t: Tuple, wantType: bool, wantCode: bool, wantId: bool) {
    && (wantType ==> f.l4dst.IcmpTypeCode? && t.l4dst.IcmpTypeCode? && f.l4dst.itype == t.l4dst.itype)
    && (wantCode ==> f.l4dst.IcmpTypeCode? && t.l4dst.IcmpTypeCode? && f.l4dst.code == t.l4dst.code)
    && (wantId ==> f.l4src == t.l4src)
  }

  /** The filter asks for an IPv6 address, whose test is inverted. */
  predicate AsksIpv6Address(f: Tuple, flags: TupleFlags) {
    f.l3num == NFPROTO_IPV6 && (flags.ipSrc || flags.ipDst)
  }

  /** The filter asks for a port of a protocol whose ports are never compared. */
  predicate AsksOtherPort(f: Tuple, flags: TupleFlags) {
    (flags.srcPort || flags.dstPort) && HasPorts(f.protonum) && f.protonum != IPPROTO_TCP && f.protonum != IPPROTO_UDP
  }

  lemma AddrTestsMean(f: Tuple, t: Tuple, flags: TupleFlags)
    requires Filled(f, flags) && Typed(t) && t.l3num == f.l3num && !AsksIpv6Address(f, flags)
    ensures AddrTests(f, t, flags, f.l3num) == Same <==>
            (flags.ipSrc ==> f.src == t.src) && (flags.ipDst ==> f.dst == t.dst)
  {
    hide FilledL4;
  }

  lemma L4TestsMean(f: Tuple, t: Tuple, flags: TupleFlags)
    requires AnyProtoField(flags) ==> FilledL4(f, flags) && f.protonum == t.protonum
    requires Typed(t) && !AsksOtherPort(f, flags)
    ensures L4Tests(f, t, flags) == Same <==> L4Agrees(f, t, flags)
  {
  }

  /** Without such a request, the code accepts exactly the tuples that agree. */
  lemma MatchMeansAgrees(f: Tuple, t: Tuple, flags: TupleFlags)
    requires Filled(f, flags) && Typed(t) && t.l3num == f.l3num
    requires !AsksIpv6Address(f, flags) && !AsksOtherPort(f, flags)
    ensures MatchTuple(f, t, flags, f.l3num) == Same <==> Agrees(f, t, flags)
  {
    AddrTestsMean(f, t, flags);
    hide AddrTests, L4Tests, L4Agrees, FilledL4, AnyProtoField, AsksIpv6Address, AsksOtherPort, Typed;
    if flags.protoNum ==> f.protonum == t.protonum {
      L4TestsMean(f, t, flags);
    }
  }

  /** A tuple that has every field the filter asks for, except that with `other` its ports are different ones. */
  function Lookalike(f: Tuple, flags: TupleFlags, other: bool): Tuple {
    var v6 := f.l3num == NFPROTO_IPV6;
    var none := if v6 then V6(Zeros(16)) else V4(Zeros(4));
    var icmp := f.protonum == IPPROTO_ICMP || f.protonum == IPPROTO_ICMPV6;
    Tuple(f.l3num, f.protonum, if flags.ipSrc then f.src else none, if flags.ipDst then f.dst else none,
          if HasPorts(f.protonum) then
            if f.l4src.SrcPort? && !other then f.l4src
            else SrcPort(if f.l4src.SrcPort? then (f.l4src.port + 1) % 0x1_0000 else 0)
          else if icmp && !f.l4src.IcmpId? then IcmpId(0) else f.l4src,
          if HasPorts(f.protonum) then
            if f.l4dst.DstPort? && !other then f.l4dst
            else DstPort(if f.l4dst.DstPort? then (f.l4dst.port + 1) % 0x1_0000 else 0)
          else if icmp && !f.l4dst.IcmpTypeCode? then IcmpTypeCode(0, 0) else f.l4dst, Original)
  }

  lemma LookalikeTyped(f: Tuple, flags: TupleFlags, other: bool)
    requires Filled(f, flags)
    ensures Typed(Lookalike(f, flags, other))
  {
    hide FilledL4;
  }

  /** A tuple that has the IPv6 addresses asked for agrees, and is refused. */
  lemma MissesIpv6(f: Tuple, flags: TupleFlags)
    requires Filled(f, flags) && AsksIpv6Address(f, flags)
    ensures var t := Lookalike(f, flags, false); MatchTuple(f, t, flags, f.l3num) != Same && Agrees(f, t, flags)
  {
    var t := Lookalike(f, flags, false);
    assert L4Agrees(f, t, flags);
    assert AddrTests(f, t, flags, f.l3num) != Same;
    hide L4Agrees, AddrTests, L4Tests, FilledL4;
  }

  /** A tuple with other ports does not agree, and is accepted. */
  lemma MissesPort(f: Tuple, flags: TupleFlags)
    requires Filled(f, flags) && !AsksIpv6Address(f, flags) && AsksOtherPort(f, flags)
    ensures var t := Lookalike(f, flags, true); MatchTuple(f, t, flags, f.l3num) == Same && !Agrees(f, t, flags)
  {
    var t := Lookalike(f, flags, true);
    assert !L4Agrees(f, t, flags) && L4Tests(f, t, flags) == Same;
    assert AddrTests(f, t, flags, f.l3num) == Same;
    hide L4Agrees, AddrTests, L4Tests, FilledL4;
  }

  /** With such a request there is always a tuple on which the code and the request disagree. */
  lemma MatchMissesAgrees(f: Tuple, flags: TupleFlags) returns (t: Tuple)
    requires Filled(f, flags) && (AsksIpv6Address(f, flags) || AsksOtherPort(f, flags))
    ensures Typed(t) && t.l3num == f.l3num
    ensures (MatchTuple(f, t, flags, f.l3num) == Same) != Agrees(f, t, flags)
  {
    hide MatchTuple, Agrees, Filled, Typed;
    t := Lookalike(f, flags, !AsksIpv6Address(f, flags));
    LookalikeTyped(f, flags, !AsksIpv6Address(f, flags));
    if AsksIpv6Address(f, flags) {
      MissesIpv6(f, flags);
    } else {
      MissesPort(f, flags);
    }
  }

  /**
    The condition, exactly: a filter tuple means what it asks for unless it asks for an IPv6 address or another
    protocol's port.
   */
  lemma ExactlyWhen(f: Tuple, flags: TupleFlags)
    requires Filled(f, flags)
    ensures (forall t :: Typed(t) && t.l3num == f.l3num ==>
               (MatchTuple(f, t, flags, f.l3num) == Same <==> Agrees(f, t, flags)))
       <==> !AsksIpv6Address(f, flags) && !AsksOtherPort(f, flags)
  {
    if AsksIpv6Address(f, flags) || AsksOtherPort(f, flags) {
      var t := MatchMissesAgrees(f, flags);
    } else {
      forall t | Typed(t) && t.l3num == f.l3num
        ensures MatchTuple(f, t, flags, f.l3num) == Same <==> Agrees(f, t, flags)
      {
        MatchMeansAgrees(f, t, flags);
      }
    }
  }

  /** A request for IPv6 connections from an address refuses that address and accepts every other. */
  lemma Ipv6Example(a: seq<Byte>, b: seq<Byte>, t: Tuple)
    requires a != b && |a| == |b| == 16 && t.l3num == NFPROTO_IPV6
    ensures var flags := NO_TUPLE_FLAGS.(ipSrc := true);
            var f := ZERO_TUPLE.(l3num := NFPROTO_IPV6, src := V6(a));
            && MatchTuple(f, t.(src := V6(a)), flags, NFPROTO_IPV6) == Differ
            && MatchTuple(f, t.(src := V6(b)), flags, NFPROTO_IPV6) == Same
  {
  }

  /** Both directions of the filter mean what they ask for. */
  predicate Plain(f: Filter) {
    && !AsksIpv6Address(f.orig, f.origFlags) && !AsksOtherPort(f.orig, f.origFlags)
    && !AsksIpv6Address(f.reply, f.replyFlags) && !AsksOtherPort(f.reply, f.replyFlags)
  }

  /** The whole of a filter: the connections it lets pass, by what each part asks for. */
  lemma FilterMeans(cda: Table, family: Byte, i: Info)
    requires Within(cda, CT_POLICY) && AllocFilter(cda, family).Ok? && TypedInfo(i)
    requires Plain(AllocFilter(cda, family).value)
    ensures var f := AllocFilter(cda, family).value;
            Passes(Some(f), i) <==>
            && (f.family == 0 || i.orig.l3num == f.family)
            && Agrees(f.orig, i.orig, f.origFlags) && Agrees(f.reply, i.reply, f.replyFlags)
            && (HasBit(f.zone.flags, NF_CT_ZONE_DIR_ORIG) ==> OrigZone(i) == f.zone.id)
            && And32(i.mark, f.mark.mask) == f.mark.val && And32(i.status, f.status.mask) == f.status.val
  {
    var f := AllocFilter(cda, family).value;
    AllocFills(cda, family);
    assert Agrees(f.orig, i.orig, NO_TUPLE_FLAGS) && Agrees(f.reply, i.reply, NO_TUPLE_FLAGS);
    hide AllocFilter, MatchTuple, Filled, Typed, Agrees;
    if i.orig.l3num == f.family {
      if f.origFlags != NO_TUPLE_FLAGS {
        MatchMeansAgrees(f.orig, i.orig, f.origFlags);
      }
      if f.replyFlags != NO_TUPLE_FLAGS {
        MatchMeansAgrees(f.reply, i.reply, f.replyFlags);
      }
    }
  }

  // ---------------------------------------------------------------- marks and states

  /** A word agrees with a value under a mask: bit by bit where the mask has a bit, and the value has no other bits. */
  ghost predicate Agree(x: U32, m: Masked) {
    forall k: nat :: Bit(m.val, k) <==> Bit(x, k) && Bit(m.mask, k)
  }

  lemma MaskedMeans(x: U32, m: Masked)
    ensures And32(x, m.mask) == m.val <==> Agree(x, m)
  {
    forall k: nat
      ensures Bit(And32(x, m.mask), k) <==> Bit(x, k) && Bit(m.mask, k)
    {
      And32Bits(x, m.mask, k);
    }
    if Agree(x, m) {
      BitsDetermine(And32(x, m.mask), m.val);
    }
  }

  /** A mark without a mask asks for that mark; no mark asks for nothing; a mask alone is an error. */
  lemma MarkMeans(cda: Table, x: U32)
    requires Within(cda, CT_POLICY) && CTA_MARK_MASK !in cda
    ensures ParseMark(cda).Ok?
    ensures var m := ParseMark(cda).value;
            And32(x, m.mask) == m.val <==> (CTA_MARK in cda ==> x == GetBe32(cda[CTA_MARK]))
  {
    assert Ones(0xff);
    assert Ones(0xffff);
    assert Ones(0xff_ffff);
    assert Ones(0xffff_ffff);
    And32Ones(x, 0xffff_ffff);
  }

  ghost predicate HasAll(x: U32, val: U32) {
    forall k: nat :: Bit(val, k) ==> Bit(x, k)
  }

  /** A status without a mask asks for all of its bits to be set, and must have one. */
  lemma StatusMeans(cda: Table, x: U32)
    requires Within(cda, CT_POLICY) && CTA_STATUS in cda && CTA_STATUS_MASK !in cda
    ensures ParseStatus(cda).Ok? <==> GetBe32(cda[CTA_STATUS]) != 0
    ensures var val := GetBe32(cda[CTA_STATUS]);
            val != 0 ==>
              var m := ParseStatus(cda).value;
              And32(x, m.mask) == m.val <==> HasAll(x, val)
  {
    var val := GetBe32(cda[CTA_STATUS]);
    MaskedMeans(x, Masked(val, val));
    hide And32, GetBe32, Within, Bit;
    if HasAll(x, val) {
      assert Agree(x, Masked(val, val));
    }
    if Agree(x, Masked(val, val)) {
      assert forall k: nat :: Bit(Masked(val, val).val, k) ==> Bit(x, k);
    }
  }
}
