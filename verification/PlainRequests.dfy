/**
  Requests by family, mark, status and zone, from their attributes to the
  connections they are about; and requests by both tuples, from their bytes on.
 */
module PlainRequests {
  import opened Conntrack
  import opened Netlink
  import opened CtMessage
  import opened CtParse
  import opened RoundTrip
  import opened Filters
  import opened FilterRequests

  // ---------------------------------------------------------------- without tuples

  /** The mark asked for, under its mask or in full. */
  function AskedMark(cda: Table): Masked
    requires Within(cda, CT_POLICY) && 8 in cda
  {
    Masked(GetBe32(cda[8]), if 21 in cda then GetBe32(cda[21]) else 0xffff_ffff)
  }

  /** The status asked for, under its mask or by the bits it has. */
  function AskedStatus(cda: Table): Masked
    requires Within(cda, CT_POLICY) && 3 in cda
  {
    Masked(GetBe32(cda[3]), GetBe32(cda[if 26 in cda then 26 else 3]))
  }

  /** The request asks for something. */
  predicate Asks(cda: Table, family: Byte) {
    family != 0 || 3 in cda || 8 in cda || 18 in cda
  }

  /** A mask without its value, or a status of which no bit counts. */
  predicate Unclear(cda: Table)
    requires Within(cda, CT_POLICY)
  {
    || (21 in cda && 8 !in cda)
    || (26 in cda && 3 !in cda)
    || (3 in cda && AskedStatus(cda).mask == 0)
  }

  /** What a request without tuples is about. */
  ghost predicate IsAbout(cda: Table, family: Byte, i: Info)
    requires Within(cda, CT_POLICY)
  {
    && (family == 0 || i.orig.l3num == family)
    && (8 in cda ==> Agree(i.mark, AskedMark(cda)))
    && (3 in cda ==> Agree(i.status, AskedStatus(cda)))
    && (18 in cda ==> (if i.zone.dir % 2 == 1 then i.zone.id else 0) == GetBe16(cda[18]))
  }

  lemma MarkPart(cda: Table, x: U32)
    requires Within(cda, CT_POLICY)
    ensures ParseMark(cda) == Err(EINVAL) <==> 21 in cda && 8 !in cda
    ensures ParseMark(cda).Ok? <==> ParseMark(cda) != Err(EINVAL)
    ensures ParseMark(cda).Ok? ==>
              (And32(x, ParseMark(cda).value.mask) == ParseMark(cda).value.val <==>
               (8 in cda ==> Agree(x, AskedMark(cda))))
  {
    hide Within, GetBe32;
    if 8 in cda {
      MaskedMeans(x, AskedMark(cda));
    }
    hide Agree;
  }

  lemma StatusPart(cda: Table, x: U32)
    requires Within(cda, CT_POLICY)
    ensures ParseStatus(cda) == Err(EINVAL) <==>
            (26 in cda && 3 !in cda) || (3 in cda && AskedStatus(cda).mask == 0)
    ensures ParseStatus(cda).Ok? <==> ParseStatus(cda) != Err(EINVAL)
    ensures ParseStatus(cda).Ok? ==>
              (And32(x, ParseStatus(cda).value.mask) == ParseStatus(cda).value.val <==>
               (3 in cda ==> Agree(x, AskedStatus(cda))))
  {
    hide Within, GetBe32;
    if 3 in cda {
      MaskedMeans(x, AskedStatus(cda));
    }
    hide Agree;
  }

  lemma NoTuples(family: Byte, zone: Zone, mark: Masked, status: Masked, i: Info)
    ensures var f := Filter(family, NO_TUPLE_FLAGS, NO_TUPLE_FLAGS, ZERO_TUPLE, ZERO_TUPLE, zone, mark, status);
            Passes(Some(f), i) <==>
            && (family == 0 || i.orig.l3num == family)
            && (zone.flags % 2 == 1 ==> (if i.zone.dir % 2 == 1 then i.zone.id else 0) == zone.id)
            && And32(i.mark, mark.mask) == mark.val && And32(i.status, status.mask) == status.val
  {
    hide And32, MatchTuple;
  }

  /**
    A dump and a flush without tuples: refused exactly if they ask for something and are unclear; else they get exactly
    the connections the request is about. A request with nothing but masks asks for nothing, and gets everything.
   */
  lemma PlainRequest(cda: Table, family: Byte, i: Info)
    requires Within(cda, CT_POLICY) && 25 !in cda
    ensures FlushFilter(cda, family) == StartFilter(cda, family)
    ensures StartFilter(cda, family) == Err(EINVAL) <==> Asks(cda, family) && Unclear(cda)
    ensures StartFilter(cda, family).Ok? <==> StartFilter(cda, family) != Err(EINVAL)
    ensures StartFilter(cda, family).Ok? ==> (Passes(StartFilter(cda, family).value, i) <==> IsAbout(cda, family, i))
  {
    MarkPart(cda, i.mark);
    StatusPart(cda, i.status);
    assert 18 in cda ==> |cda[18]| >= 2;
    hide And32, Agree, ParseMark, ParseStatus, AskedMark, AskedStatus, GetBe16, Within, Match;
    if ParseMark(cda).Ok? && ParseStatus(cda).Ok? {
      NoTuples(family, ParseZone(Lookup(cda, 18)), ParseMark(cda).value, ParseStatus(cda).value, i);
    }
  }

  /** A mask without its mark is refused next to a family, and by itself means everything, also for a flush. */
  lemma MaskAlone(mask: U32)
    ensures var cda := map[21 := Be32(mask)];
            && Within(cda, CT_POLICY)
            && FlushFilter(cda, 0) == StartFilter(cda, 0) == Ok(None)
            && FlushFilter(cda, 2) == StartFilter(cda, 2) == Err(EINVAL)
  {
    var cda := map[21 := Be32(mask)];
    assert Within(cda, CT_POLICY);
    hide Within, Be32;
  }

  /** A flush by tuples is refused, whatever else it asks for. */
  lemma TupleFlushRefused(cda: Table, family: Byte)
    requires Within(cda, CT_POLICY) && 25 in cda
    ensures FlushFilter(cda, family) == Err(EOPNOTSUPP)
  {
    hide Within;
  }

  // ---------------------------------------------------------------- by both tuples

  /** The filter attribute of a request that asks for fields of both directions. */
  function BothFlags(f: TupleFlags, g: TupleFlags): seq<Byte> {
    EncodeAll([Leaf(1, Le32(FlagWord(f))), Leaf(2, Le32(FlagWord(g)))])
  }

  lemma StrictReadsTwo(data: seq<Byte>, more: seq<Byte>)
    requires |data| == 4 && |more| == 4
    ensures ParseStrict(EncodeAll([Leaf(1, data), Leaf(2, more)]), 2) == Ok(map[1 := data] + map[2 := more])
  {
    var a, c := Leaf(1, data), Leaf(2, more);
    var b, rest := Encode(a), EncodeAll([c]);
    StrictReads(2, more, 2);
    EncodeConcat([a], [c]);
    assert [a] + [c] == [a, c];
    EncodeOne(a);
    EncodeParts(a);
    assert Zeros(0) == [];
    assert b == Header(8, 1) + data;
    HeaderReads(8, 1, data + rest);
    assert Header(8, 1) + (data + rest) == b + rest;
    assert (b + rest)[NLA_HDRLEN..8] == data && (b + rest)[8..] == rest;
    hide Encode, Header, Zeros, EncodeAll;
  }

  /** The flags of each direction are read from their own attribute. */
  lemma BothFlagsRead(f: TupleFlags, g: TupleFlags)
    ensures ParseFilter(BothFlags(f, g)) == Ok((f, g))
  {
    hide FlagWord, FlagsOf, ParseStrict, EncodeAll, Le32, GetLe32;
    var n, m := FlagWord(f), FlagWord(g);
    FlagWordReads(f);
    FlagWordReads(g);
    StrictReadsTwo(Le32(n), Le32(m));
    Le32Reads(n, []);
    Le32Reads(m, []);
    assert Le32(n) + [] == Le32(n) && Le32(m) + [] == Le32(m);
  }

  /** A request for the connection with the tuples `o` and `r`: every field of both. */
  function AskingBoth(o: Tuple, r: Tuple): Table {
    map[25 := BothFlags(ALL_FLAGS, ALL_FLAGS), 1 := EncodeAll(TupleAttrs(o)), 2 := EncodeAll(TupleAttrs(r))]
  }

  /** IPv4 tuples of TCP or UDP: those whose every field the filter compares, and rightly. */
  predicate Plainly(t: Tuple, dir: Dir) {
    Complete(t) && t.l3num == 2 && (t.protonum == 6 || t.protonum == 17) && t.dir == dir
  }

  lemma AskingBothObeys(o: Tuple, r: Tuple)
    ensures Within(AskingBoth(o, r), CT_POLICY)
  {
    var flags := [Leaf(1, Le32(FlagWord(ALL_FLAGS))), Leaf(2, Le32(FlagWord(ALL_FLAGS)))];
    assert BothFlags(ALL_FLAGS, ALL_FLAGS) == EncodeAll(flags);
    hide FlagWord, TupleAttrs, Le32, BothFlags;
    NestWithin(25, flags);
    NestWithin(1, TupleAttrs(o));
    NestWithin(2, TupleAttrs(r));
    hide Obeys, EncodeAll;
  }

  lemma NestWithin(kind: nat, kids: seq<Attr>)
    ensures kind in {1, 2, 25} ==> Obeys(CT_POLICY, kind, EncodeAll(kids))
  {
    if kind in {1, 2, 25} {
      NestObeys(Nest(kind, kids), CT_POLICY);
    }
    hide EncodeAll;
  }

  lemma PlainSize(t: Tuple)
    requires Plainly(t, t.dir)
    ensures SizeAll(TupleAttrs(t) + []) < 0x1_0000
  {
    var ip, num := IpAttr(t), Leaf(1, [t.protonum]);
    var l := L4Attrs(t);
    SizeTwo(ip.kids[0], ip.kids[1]);
    assert ip.kids == [ip.kids[0], ip.kids[1]];
    SizeThree(num, l[0], l[1]);
    assert [num] + l == [num, l[0], l[1]];
    SizeTwo(ip, ProtoAttr(t));
    assert TupleAttrs(t) + [] == TupleAttrs(t);
    hide SizeAll;
  }

  lemma PlainReads(t: Tuple, kind: nat)
    requires Plainly(t, if kind == 2 then Reply else Original)
    ensures ParseTupleFilter(EncodeAll(TupleAttrs(t)), kind, 2, DEFAULT_ZONE, ALL_FLAGS) == Ok((t, DEFAULT_ZONE))
  {
    PlainSize(t);
    assert TupleAttrs(t) + [] == TupleAttrs(t);
    hide ParseTupleFilter, EncodeAll, TupleAttrs, SizeAll, Complete;
    TupleReads(t, [], kind, DEFAULT_ZONE);
  }

  lemma AllocOf(cda: Table, f: TupleFlags, o: Tuple, r: Tuple)
    requires Within(cda, CT_POLICY) && 25 in cda && 1 in cda && 2 in cda && f != NO_TUPLE_FLAGS
    requires 3 !in cda && 8 !in cda && 18 !in cda && 21 !in cda && 26 !in cda && ParseFilter(cda[25]) == Ok((f, f))
    requires ParseTupleFilter(cda[1], 1, 2, DEFAULT_ZONE, f) == Ok((o, DEFAULT_ZONE))
    requires ParseTupleFilter(cda[2], 2, 2, DEFAULT_ZONE, f) == Ok((r, DEFAULT_ZONE))
    ensures AllocFilter(cda, 2) == Ok(Filter(2, f, f, o, r, DEFAULT_ZONE, Masked(0, 0), Masked(0, 0)))
  {
    hide ParseTupleFilter, ParseFilter, Within;
  }

  /** The filter of such a request. */
  lemma BothGive(o: Tuple, r: Tuple)
    requires Plainly(o, Original) && Plainly(r, Reply)
    ensures Within(AskingBoth(o, r), CT_POLICY)
    ensures AllocFilter(AskingBoth(o, r), 2) ==
            Ok(Filter(2, ALL_FLAGS, ALL_FLAGS, o, r, DEFAULT_ZONE, Masked(0, 0), Masked(0, 0)))
  {
    hide BothFlags, EncodeAll, ParseTupleFilter, ParseFilter, Within, TupleAttrs, Complete, AllocFilter;
    AskingBothObeys(o, r);
    BothFlagsRead(ALL_FLAGS, ALL_FLAGS);
    PlainReads(o, 1);
    PlainReads(r, 2);
    AllocOf(AskingBoth(o, r), ALL_FLAGS, o, r);
  }

  /** From its bytes on, the request gets exactly the connections with these two tuples, each in its own direction. */
  lemma ConnectionRequest(o: Tuple, r: Tuple, i: Info)
    requires Plainly(o, Original) && Plainly(r, Reply) && TypedInfo(i)
    ensures Within(AskingBoth(o, r), CT_POLICY)
    ensures var filter := StartFilter(AskingBoth(o, r), 2);
            && filter.Ok?
            && (Passes(filter.value, i) <==> i.orig == o.(dir := i.orig.dir) && i.reply == r.(dir := i.reply.dir))
  {
    hide AskingBoth, AllocFilter, Within, Passes, Agrees, Typed, Complete, And32;
    BothGive(o, r);
    var cda := AskingBoth(o, r);
    assert NeedsFilter(2, cda);
    And32Zero(i.mark);
    And32Zero(i.status);
    FilterMeans(cda, 2, i);
    PlainAgrees(o, i.orig);
    PlainAgrees(r, i.reply);
  }

  lemma PlainAgrees(f: Tuple, t: Tuple)
    requires Plainly(f, f.dir)
    ensures t.l3num == 2 && Agrees(f, t, ALL_FLAGS) <==> t == f.(dir := t.dir)
  {
  }
}
