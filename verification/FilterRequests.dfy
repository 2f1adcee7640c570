/**
  Two requests, from their bytes on, for which the filter does not do what they
  ask for: by an IPv6 address, and by a port of SCTP.
 */
module FilterRequests {
  import opened Conntrack
  import opened Netlink
  import opened CtMessage
  import opened CtParse
  import opened RoundTrip
  import opened Filters

  const IPPROTO_SCTP: Byte := 132

  // ---------------------------------------------------------------- the parts of a request

  /** The filter attribute of a request that asks for fields of the original direction. */
  function FlagsPart(f: TupleFlags): seq<Byte> {
    EncodeAll([Leaf(CTA_FILTER_ORIG_FLAGS, Le32(FlagWord(f)))])
  }

  lemma StrictReads(kind: nat, data: seq<Byte>, maxKind: nat)
    requires 0 < kind <= maxKind < 0x4000 && |data| == 4
    ensures ParseStrict(EncodeAll([Leaf(kind, data)]), maxKind) == Ok(map[kind := data])
  {
    var a := Leaf(kind, data);
    var b := Encode(a);
    EncodeOne(a);
    EncodeParts(a);
    assert Zeros(0) == [];
    assert b == Header(8, kind) + data;
    HeaderReads(8, kind, data);
    assert b[NLA_HDRLEN..8] == data;
    assert map[kind := data] + map[] == map[kind := data];
    hide Encode, Header, Zeros, EncodeAll;
    assert ParseStrict([], maxKind) == Ok(map[]);
  }

  /** The flags of a request are read as they were asked for. */
  lemma FlagsPartReads(f: TupleFlags)
    ensures ParseFilter(FlagsPart(f)) == Ok((f, NO_TUPLE_FLAGS))
  {
    hide FlagWord, FlagsOf, ParseStrict, EncodeAll, Le32, GetLe32;
    var n := FlagWord(f);
    FlagWordReads(f);
    StrictReads(CTA_FILTER_ORIG_FLAGS, Le32(n), CTA_FILTER_MAX);
    Le32Reads(n, []);
    assert Le32(n) + [] == Le32(n);
  }

  /** A request for the original direction: the flags, and the attributes of the tuple. */
  function Asking(f: TupleFlags, tuple: seq<Attr>): Table {
    map[CTA_FILTER := FlagsPart(f), CTA_TUPLE_ORIG := EncodeAll(tuple)]
  }

  lemma AskingObeys(f: TupleFlags, tuple: seq<Attr>)
    ensures Within(Asking(f, tuple), CT_POLICY)
  {
    NestObeys(Nest(CTA_FILTER, [Leaf(CTA_FILTER_ORIG_FLAGS, Le32(FlagWord(f)))]), CT_POLICY);
    NestObeys(Nest(CTA_TUPLE_ORIG, tuple), CT_POLICY);
    hide EncodeAll, FlagWord;
  }

  /** The filter of such a request. */
  lemma AskingGives(f: TupleFlags, tuple: seq<Attr>, family: Byte, t: Tuple)
    requires f != NO_TUPLE_FLAGS
    requires ParseTupleFilter(EncodeAll(tuple), CTA_TUPLE_ORIG, family, DEFAULT_ZONE, f) == Ok((t, DEFAULT_ZONE))
    ensures Within(Asking(f, tuple), CT_POLICY)
    ensures AllocFilter(Asking(f, tuple), family) ==
            Ok(Filter(family, f, NO_TUPLE_FLAGS, t, ZERO_TUPLE, DEFAULT_ZONE, Masked(0, 0), Masked(0, 0)))
  {
    AskingObeys(f, tuple);
    FlagsPartReads(f);
    hide FlagsPart, EncodeAll, ParseTupleFilter, ParseFilter, Within;
  }

  /** What a filter on the original tuple alone lets pass. */
  lemma OriginalOnly(f: TupleFlags, t: Tuple, family: Byte, i: Info)
    requires f != NO_TUPLE_FLAGS && i.orig.l3num == family
    ensures Passes(Some(Filter(family, f, NO_TUPLE_FLAGS, t, ZERO_TUPLE, DEFAULT_ZONE, Masked(0, 0), Masked(0, 0))), i)
       <==> MatchTuple(t, i.orig, f, family) == Same
  {
    assert And32(i.mark, 0) == 0 && And32(i.status, 0) == 0;
    hide MatchTuple, And32;
  }

  // ---------------------------------------------------------------- an IPv6 address

  const BY_SOURCE := NO_TUPLE_FLAGS.(ipSrc := true)

  function SourcePart(a: seq<Byte>): seq<Attr> {
    [Nest(CTA_TUPLE_IP, [Leaf(CTA_IP_V6_SRC, a)])]
  }

  lemma TableOfOne(a: Attr, maxKind: nat)
    requires 0 < a.kind <= maxKind
    ensures TableOf([a], maxKind) == map[a.kind := Payload(a)]
  {
    assert [a][1..] == [];
    hide Payload;
  }

  lemma SourceReads(a: seq<Byte>)
    requires |a| == 16
    ensures ParseTupleFilter(EncodeAll(SourcePart(a)), CTA_TUPLE_ORIG, NFPROTO_IPV6, DEFAULT_ZONE, BY_SOURCE) ==
            Ok((ZERO_TUPLE.(l3num := NFPROTO_IPV6, src := V6(a)), DEFAULT_ZONE))
  {
    var leaf := Leaf(CTA_IP_V6_SRC, a);
    var nest := Nest(CTA_TUPLE_IP, [leaf]);
    EncodeOne(leaf);
    EncodeSize(leaf);
    assert Payload(nest) == EncodeAll([leaf]);
    ParseUnderEncoded([nest], CTA_TUPLE_MAX, TUPLE_POLICY);
    ParseUnderEncoded([leaf], CTA_IP_MAX, IP_POLICY);
    TableOfOne(nest, CTA_TUPLE_MAX);
    TableOfOne(leaf, CTA_IP_MAX);
    assert a[..16] == a;
    hide EncodeAll, ParseUnder, TableOf;
  }

  /** A request for the IPv6 connections from an address gets all connections but those from that address. */
  lemma Ipv6Request(a: seq<Byte>, i: Info)
    requires |a| == 16 && i.orig.l3num == NFPROTO_IPV6 && i.orig.src.V6?
    ensures Within(Asking(BY_SOURCE, SourcePart(a)), CT_POLICY)
    ensures var filter := StartFilter(Asking(BY_SOURCE, SourcePart(a)), NFPROTO_IPV6);
            filter.Ok? && (Passes(filter.value, i) <==> i.orig.src != V6(a))
  {
    hide AllocFilter, Passes, Within, Asking, EncodeAll, ParseTupleFilter;
    SourceReads(a);
    var t := ZERO_TUPLE.(l3num := NFPROTO_IPV6, src := V6(a));
    AskingGives(BY_SOURCE, SourcePart(a), NFPROTO_IPV6, t);
    OriginalOnly(BY_SOURCE, t, NFPROTO_IPV6, i);
  }

  // ---------------------------------------------------------------- a port of SCTP

  const BY_PORT := NO_TUPLE_FLAGS.(protoNum := true, srcPort := true)

  function PortPart(port: U16): seq<Attr> {
    [Nest(CTA_TUPLE_PROTO, [Leaf(CTA_PROTO_NUM, [IPPROTO_SCTP]), Leaf(CTA_PROTO_SRC_PORT, Be16(port))])]
  }

  lemma PortTable(port: U16)
    ensures var num, src := Leaf(CTA_PROTO_NUM, [IPPROTO_SCTP]), Leaf(CTA_PROTO_SRC_PORT, Be16(port));
            var tb := map[CTA_PROTO_NUM := [IPPROTO_SCTP]] + map[CTA_PROTO_SRC_PORT := Be16(port)];
            && |EncodeAll([num, src])| == 16
            && ParseUnder(EncodeAll([num, src]), CTA_PROTO_MAX, PROTO_POLICY) == Ok(tb)
            && ParseUnder(EncodeAll([num, src]), CTA_PROTO_MAX, L4Policy(IPPROTO_SCTP)) == Ok(tb)
  {
    var num, src := Leaf(CTA_PROTO_NUM, [IPPROTO_SCTP]), Leaf(CTA_PROTO_SRC_PORT, Be16(port));
    EncodeAllSize([num, src]);
    SizeTwo(num, src);
    ParseUnderEncoded([num, src], CTA_PROTO_MAX, PROTO_POLICY);
    ParseUnderEncoded([num, src], CTA_PROTO_MAX, L4Policy(IPPROTO_SCTP));
    TableOfTwo(num, src, CTA_PROTO_MAX);
    hide EncodeAll, ParseUnder, TableOf, SizeAll;
  }

  lemma PortProtoReads(attr: seq<Byte>, port: U16, t: Tuple)
    requires var tb := map[CTA_PROTO_NUM := [IPPROTO_SCTP]] + map[CTA_PROTO_SRC_PORT := Be16(port)];
             && ParseUnder(attr, CTA_PROTO_MAX, PROTO_POLICY) == Ok(tb)
             && ParseUnder(attr, CTA_PROTO_MAX, L4Policy(IPPROTO_SCTP)) == Ok(tb)
    ensures ParseTupleProto(attr, t, BY_PORT) == Ok(t.(protonum := IPPROTO_SCTP, l4src := SrcPort(port)))
  {
    Be16Reads(port);
    hide ParseUnder, L4Policy, GetBe16, Be16;
  }

  lemma PortReads(port: U16)
    ensures ParseTupleFilter(EncodeAll(PortPart(port)), CTA_TUPLE_ORIG, NFPROTO_IPV4, DEFAULT_ZONE, BY_PORT) ==
            Ok((ZERO_TUPLE.(l3num := NFPROTO_IPV4, protonum := IPPROTO_SCTP, l4src := SrcPort(port)), DEFAULT_ZONE))
  {
    var nest := PortPart(port)[0];
    PortTable(port);
    PortProtoReads(Payload(nest), port, ZERO_TUPLE.(l3num := NFPROTO_IPV4));
    ParseUnderEncoded([nest], CTA_TUPLE_MAX, TUPLE_POLICY);
    TableOfOne(nest, CTA_TUPLE_MAX);
    assert PortPart(port) == [nest];
    hide EncodeAll, ParseUnder, TableOf, Payload, PortPart, ParseTupleProto;
  }

  /** A request for the SCTP connections from a port gets those from every port. */
  lemma SctpRequest(port: U16, i: Info)
    requires i.orig.l3num == NFPROTO_IPV4 && i.orig.protonum == IPPROTO_SCTP
    ensures Within(Asking(BY_PORT, PortPart(port)), CT_POLICY)
    ensures var filter := StartFilter(Asking(BY_PORT, PortPart(port)), NFPROTO_IPV4);
            filter.Ok? && Passes(filter.value, i)
  {
    hide AllocFilter, Passes, Within, Asking, EncodeAll, ParseTupleFilter;
    PortReads(port);
    var t := ZERO_TUPLE.(l3num := NFPROTO_IPV4, protonum := IPPROTO_SCTP, l4src := SrcPort(port));
    AskingGives(BY_PORT, PortPart(port), NFPROTO_IPV4, t);
    OriginalOnly(BY_PORT, t, NFPROTO_IPV4, i);
  }
}
