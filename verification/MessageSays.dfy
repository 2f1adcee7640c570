/**
  Whole messages: the fields of their heads, and every attribute, read from
  the bytes.
 */
module MessageSays {
  import opened Conntrack
  import opened Chains
  import opened Netlink
  import opened CtMessage
  import opened CtParse
  import opened RoundTrip
  import opened Reset
  import opened EventSize
  import opened Contents

  // ---------------------------------------------------------------- heads

  /** The head of a message, field by field, at its place; the attributes come after it. */
  lemma HeadReads(h: Head, attrs: seq<Attr>)
    requires |Message(h, attrs)| < 0x1_0000_0000
    ensures var m := Message(h, attrs);
            && |m| == 20 + |EncodeAll(attrs)| && m[20..] == EncodeAll(attrs)
            && GetLe32(m) == |m| && GetLe16(m[4..]) == h.kind && GetLe16(m[6..]) == h.flags
            && GetLe32(m[8..]) == h.seqno && GetLe32(m[12..]) == h.portid
            && m[16] == h.family && m[17] == 0 && m[18] == 0 && m[19] == 0
  {
    var body := EncodeAll(attrs);
    var len := 20 + |body|;
    var b := HeadBytes(h, len);
    HeadParts(h, len);
    var m := Message(h, attrs);
    assert m == b + body;
    hide HeadBytes, EncodeAll, Message;
    LongerReads(b, body);
  }

  lemma HeadParts(h: Head, len: nat)
    requires len < 0x1_0000_0000
    ensures var b := HeadBytes(h, len);
            && |b| == 20 && GetLe32(b) == len && GetLe16(b[4..]) == h.kind && GetLe16(b[6..]) == h.flags
            && GetLe32(b[8..]) == h.seqno && GetLe32(b[12..]) == h.portid
            && b[16] == h.family && b[17] == 0 && b[18] == 0 && b[19] == 0
  {
    var b := HeadBytes(h, len);
    var r3 := Le32(h.seqno) + (Le32(h.portid) + [h.family, 0, 0, 0]);
    assert b == Le32(len) + (Le16(h.kind) + (Le16(h.flags) + r3));
    hide HeadBytes, Le32, Le16, GetLe32, GetLe16;
    FrontReads(b, len, h.kind, h.flags, r3);
    BackReads(b, h.seqno, h.portid, h.family);
  }

  lemma FrontReads(b: seq<Byte>, len: U32, kind: U16, flags: U16, rest: seq<Byte>)
    requires b == Le32(len) + (Le16(kind) + (Le16(flags) + rest))
    ensures |b| == 8 + |rest| && GetLe32(b) == len && GetLe16(b[4..]) == kind && GetLe16(b[6..]) == flags
    ensures b[8..] == rest
  {
    var r2 := Le16(flags) + rest;
    var r1 := Le16(kind) + r2;
    Le32Reads(len, r1);
    Le16Reads(kind, r2);
    Le16Reads(flags, rest);
    hide Le32, Le16, GetLe32, GetLe16;
    assert b[0..] == b;
    Past(b, 0, Le32(len), r1);
    Past(b, 4, Le16(kind), r2);
    Past(b, 6, Le16(flags), rest);
  }

  lemma BackReads(b: seq<Byte>, seqno: U32, portid: U32, family: Byte)
    requires |b| == 20 && b[8..] == Le32(seqno) + (Le32(portid) + [family, 0, 0, 0])
    ensures GetLe32(b[8..]) == seqno && GetLe32(b[12..]) == portid
    ensures b[16] == family && b[17] == 0 && b[18] == 0 && b[19] == 0
  {
    var r5 := [family, 0, 0, 0];
    var r4 := Le32(portid) + r5;
    Le32Reads(seqno, r4);
    Le32Reads(portid, r5);
    hide Le32, GetLe32;
    Past(b, 8, Le32(seqno), r4);
    Past(b, 12, Le32(portid), r5);
    LastFour(b, family);
  }

  lemma LastFour(b: seq<Byte>, x: Byte)
    requires |b| == 20 && b[16..] == [x, 0, 0, 0]
    ensures b[16] == x && b[17] == 0 && b[18] == 0 && b[19] == 0
  {
    assert b[16] == b[16..][0] && b[17] == b[16..][1] && b[18] == b[16..][2] && b[19] == b[16..][3];
  }

  /** What is read from the first twenty bytes does not depend on what follows. */
  lemma LongerReads(b: seq<Byte>, body: seq<Byte>)
    requires |b| == 20
    ensures var m := b + body;
            && m[20..] == body
            && GetLe32(m) == GetLe32(b) && GetLe16(m[4..]) == GetLe16(b[4..]) && GetLe16(m[6..]) == GetLe16(b[6..])
            && GetLe32(m[8..]) == GetLe32(b[8..]) && GetLe32(m[12..]) == GetLe32(b[12..])
            && m[16] == b[16] && m[17] == b[17] && m[18] == b[18] && m[19] == b[19]
  {
    var m := b + body;
    assert forall i :: 0 <= i < 4 ==> m[8..][i] == b[8..][i] && m[12..][i] == b[12..][i];
  }

  /** The head of a dump message: its type, and in its flags whether it is one of many and of a filtered dump. */
  lemma DumpHeadSays(c: Conn, portid: U32, seqno: U32, ext: bool, f: Flags)
    requires |Message(DumpHead(c, portid, seqno, f), DumpAttrs(c, ext, f))| < 0x1_0000_0000
    ensures var m := Message(DumpHead(c, portid, seqno, f), DumpAttrs(c, ext, f));
            && |m| >= 20 && GetLe32(m) == |m| && GetLe16(m[4..]) == 0x100
            && GetLe16(m[6..]) == (if f.filtered then 0x20 else 0) + (if portid != 0 then 2 else 0)
            && GetLe32(m[8..]) == seqno && GetLe32(m[12..]) == portid && m[16] == c.info.orig.l3num && m[17] == 0
  {
    hide DumpAttrs, EncodeAll, Message, GetLe16, GetLe32;
    HeadReads(DumpHead(c, portid, seqno, f), DumpAttrs(c, ext, f));
  }

  /** The head of an event message: a destroyed connection is a deletion, all else is news, and new ones are created. */
  lemma EventHeadSays(c: Conn, mask: U32, secmarked: bool, portid: U32)
    requires |Message(EventHead(c, EventsOf(mask), portid), EventAttrs(c, EventsOf(mask), secmarked))| < 0x1_0000_0000
    ensures var m := Message(EventHead(c, EventsOf(mask), portid), EventAttrs(c, EventsOf(mask), secmarked));
            && |m| >= 20 && GetLe32(m) == |m|
            && GetLe16(m[4..]) == (if Bit(mask, 2) then 0x102 else 0x100)
            && GetLe16(m[6..]) == (if !Bit(mask, 2) && (Bit(mask, 0) || Bit(mask, 1)) then 0x600 else 0)
            && GetLe32(m[8..]) == 0 && GetLe32(m[12..]) == portid && m[16] == c.info.orig.l3num && m[17] == 0
    ensures GroupOf(EventsOf(mask)) == if Bit(mask, 2) then 3 else if Bit(mask, 0) || Bit(mask, 1) then 1 else 2
  {
    hide EventAttrs, EncodeAll, Message, GetLe16, GetLe32, Bit;
    HeadReads(EventHead(c, EventsOf(mask), portid), EventAttrs(c, EventsOf(mask), secmarked));
  }

  // ---------------------------------------------------------------- protocol information

  /** The tracker's own nest, attribute by attribute. */
  lemma TcpSays(attr: seq<Byte>, t: TcpState, destroy: bool)
    requires attr == EncodeAll(TcpAttrs(t, destroy))
    ensures var tb := Parse(attr, ANY_KIND);
            && Lookup(tb, 1) == Some([t.state])
            && Lookup(tb, 2) == (if destroy then None else Some([t.seen0.tdScale]))
            && Lookup(tb, 3) == (if destroy then None else Some([t.seen1.tdScale]))
            && Lookup(tb, 4) == (if destroy then None else Some([t.seen0.flags, 0]))
            && Lookup(tb, 5) == (if destroy then None else Some([t.seen1.flags, 0]))
            && Lookup(tb, 6) == (if destroy then None else Some(SeqTrackBytes(t)))
  {
    var attrs := TcpAttrs(t, destroy);
    ParseEncoded(attrs, ANY_KIND);
    hide Parse, EncodeAll, SeqTrackBytes, TableOf;
    if destroy {
      assert attrs == [Leaf(1, [t.state])];
      OneIn(attrs[0]);
    } else {
      TcpKinds(t);
      TableHolds(attrs, ANY_KIND, 0);
      TableHolds(attrs, ANY_KIND, 1);
      TableHolds(attrs, ANY_KIND, 2);
      TableHolds(attrs, ANY_KIND, 3);
      TableHolds(attrs, ANY_KIND, 4);
      TableHolds(attrs, ANY_KIND, 5);
    }
  }

  lemma TcpKinds(t: TcpState)
    ensures RoundTrip.Distinct(TcpAttrs(t, false))
  {
    hide SeqTrackBytes;
  }

  /** Filtered dumps with the export switched on carry the tracker's nest for TCP; else it is the protocol's own. */
  lemma ProtoInfoSays(c: Conn, on: bool, destroy: bool, f: Flags, tb: Table)
    requires Holds(tb, When(on, ProtoInfoAttrs(c, destroy, f)), 4)
    ensures var own := f.filtered && f.exportTcp && c.info.orig.protonum == 6;
            && (on && own ==> Inner(tb, 4, 1) == Some(EncodeAll(TcpAttrs(c.tcp, destroy))))
            && (on && !own && c.hook.Some? ==>
                  Lookup(tb, 4) == Some(EncodeAll(if destroy then c.hook.value.destroy else c.hook.value.normal)))
            && (!on || (!own && c.hook.None?) ==> 4 !in tb)
  {
    var attrs := When(on, ProtoInfoAttrs(c, destroy, f));
    hide TcpAttrs;
    if attrs == [] {
      NoAttr(4);
    } else {
      assert attrs == [attrs[0]] && attrs[0] in attrs;
      OneAttr(attrs[0], 4);
      if OwnTcp(c, f) {
        var inner := Nest(1, TcpAttrs(c.tcp, destroy));
        InnerReads(tb, 4, [inner], 1);
        OneIn(inner);
      }
    }
    hide TableOf, EncodeAll, Parse;
  }

  // ---------------------------------------------------------------- parts of a message

  lemma PartKinds(k: nat)
    requires 1 <= Part(k) <= 24
    ensures 0 < k < 0x4000
  {
  }

  lemma {:induction false} FlattenKinds(groups: seq<seq<Attr>>, parts: seq<nat>)
    requires Sorted(groups, parts) && forall i :: 0 <= i < |parts| ==> 1 <= parts[i] <= 24
    ensures forall a :: a in Flatten(groups) ==> 0 < a.kind < 0x4000
    decreases |groups|
  {
    if groups != [] {
      var n := |groups| - 1;
      FlattenKinds(groups[..n], parts[..n]);
      assert IsPart(groups[n], parts[n]);
      forall a | a in groups[n]
        ensures 0 < a.kind < 0x4000
      {
        PartKinds(a.kind);
      }
      hide Part;
    }
  }

  lemma {:induction false} FlattenHolds(groups: seq<seq<Attr>>, j: nat, a: Attr)
    requires j < |groups| && a in groups[j]
    ensures a in Flatten(groups)
    decreases |groups|
  {
    var n := |groups| - 1;
    if j < n {
      FlattenHolds(groups[..n], j, a);
    }
  }

  /** Reading a message gives, for each of its parts, what that part is. */
  lemma PartHolds(groups: seq<seq<Attr>>, parts: seq<nat>, j: nat)
    requires Sorted(groups, parts) && (forall i :: 0 <= i < |parts| ==> 1 <= parts[i] <= 24) && j < |parts|
    requires SizeAll(Flatten(groups)) < 0x1_0000
    ensures Holds(Parse(EncodeAll(Flatten(groups)), CTA_MAX), groups[j], parts[j])
  {
    FlattenKinds(groups, parts);
    MembersSized(Flatten(groups));
    hide Parse, EncodeAll, TableOf, Part, Sized, SizeAll, Sorted, Flatten;
    ParseEncoded(Flatten(groups), CTA_MAX);
    forall k: nat | Part(k) == parts[j]
      ensures Lookup(TableOf(Flatten(groups), CTA_MAX), k) == Lookup(TableOf(groups[j], CTA_MAX), k)
    {
      FlattenLookup(groups, parts, j, k);
    }
    forall a | a in groups[j]
      ensures Sized(a)
    {
      FlattenHolds(groups, j, a);
    }
  }

  // ---------------------------------------------------------------- dump messages

  function DumpIds(): (p: seq<nat>)
    ensures |p| == 15
  {
    [1, 3, 8, 19, 12, 11, 14, 7, 4, 9, 20, 5, 22, 15, 24]
  }

  /** The parts of a dump message, in order. */
  function DumpParts(c: Conn, ext: bool, f: Flags): (p: seq<seq<Attr>>)
    ensures |p| == 15
  {
    FirstParts(c) + LiveParts(c, f) + ExtParts(c, ext)
  }

  function FirstParts(c: Conn): (p: seq<seq<Attr>>)
    ensures |p| == 7
  {
    [TuplesAndZone(c), StatusAttrs(c), MarkAttrs(c, true), When(true, SecctxAttrs(c)), IdAttrs(c), UseAttrs(c),
     When(true, MasterAttrs(c))]
  }

  function LiveParts(c: Conn, f: Flags): (p: seq<seq<Attr>>)
    ensures |p| == 2
  {
    var live := !Status(c, IPS_OFFLOAD);
    [When(live, TimeoutAttrs(c, false)), When(live, ProtoInfoAttrs(c, false, f))]
  }

  function ExtParts(c: Conn, ext: bool): (p: seq<seq<Attr>>)
    ensures |p| == 6
  {
    [When(ext, AcctAttrs(c)), When(ext, TstampAttrs(c)), When(ext, HelpAttrs(c)), When(ext, LabelAttrs(c)),
     When(ext, SeqAdjAttrs(c)), When(ext, SynProxyAttrs(c))]
  }

  lemma FlattenTwo(a: seq<Attr>, b: seq<Attr>)
    ensures Flatten([a, b]) == a + b
  {
    assert [a, b][..1] == [a] && [a][..0] == [];
    assert Flatten([a]) == [] + a == a;
  }

  lemma FlattenSix(a: seq<Attr>, b: seq<Attr>, c: seq<Attr>, d: seq<Attr>, e: seq<Attr>, f: seq<Attr>)
    ensures Flatten([a, b, c, d, e, f]) == a + b + c + d + e + f
  {
    assert [a, b, c, d, e, f][..5] == [a, b, c, d, e] && [a, b, c, d, e][..4] == [a, b, c, d];
    assert [a, b, c, d][..3] == [a, b, c] && [a, b, c][..2] == [a, b];
    FlattenTwo(a, b);
    assert Flatten([a, b, c]) == a + b + c;
    assert Flatten([a, b, c, d]) == a + b + c + d;
    assert Flatten([a, b, c, d, e]) == a + b + c + d + e;
  }

  lemma FlattenOne(a: seq<Attr>)
    ensures Flatten([a]) == a
  {
    assert [a][..0] == [];
    assert [] + a == a;
  }

  lemma ExtFlattens(c: Conn, ext: bool)
    ensures Flatten(ExtParts(c, ext)) == When(ext, ExtAttrs(c))
  {
    hide AcctAttrs, TstampAttrs, HelpAttrs, LabelAttrs, SeqAdjAttrs, SynProxyAttrs;
    var p := ExtParts(c, ext);
    FlattenSix(p[0], p[1], p[2], p[3], p[4], p[5]);
    assert p == [p[0], p[1], p[2], p[3], p[4], p[5]];
    hide Flatten;
  }

  lemma InfoFlattens(c: Conn, f: Flags)
    ensures Flatten(FirstParts(c)) + Flatten(LiveParts(c, f)) == TuplesAndZone(c) + InfoAttrs(c, f)
  {
    hide StatusAttrs, MarkAttrs, SecctxAttrs, IdAttrs, UseAttrs, MasterAttrs, TimeoutAttrs, ProtoInfoAttrs,
         TuplesAndZone, Status;
    var p, l := FirstParts(c), LiveParts(c, f);
    var rest := [p[1], p[2], p[3], p[4], p[5], p[6]];
    assert p == [p[0]] + rest;
    FlattenAppend([p[0]], rest);
    FlattenOne(p[0]);
    FlattenSix(p[1], p[2], p[3], p[4], p[5], p[6]);
    assert l == [l[0], l[1]];
    FlattenTwo(l[0], l[1]);
    assert InfoAttrs(c, f) == Flatten(rest) + (l[0] + l[1]);
    hide Flatten, InfoAttrs, FirstParts, LiveParts;
    Assoc(p[0], Flatten(rest), l[0] + l[1]);
  }

  lemma DumpFlattens(c: Conn, ext: bool, f: Flags)
    ensures Flatten(DumpParts(c, ext, f)) == DumpAttrs(c, ext, f)
  {
    FlattenAppend(FirstParts(c), LiveParts(c, f));
    FlattenAppend(FirstParts(c) + LiveParts(c, f), ExtParts(c, ext));
    ExtFlattens(c, ext);
    InfoFlattens(c, f);
    hide Flatten, FirstParts, LiveParts, ExtParts, InfoAttrs, ExtAttrs, TuplesAndZone;
  }

  lemma FirstSorted(c: Conn, i: nat)
    requires i < 7
    ensures IsPart(FirstParts(c)[i], DumpIds()[i])
  {
    hide TupleAttrs, Status;
  }

  lemma LiveSorted(c: Conn, f: Flags, i: nat)
    requires i < 2
    ensures IsPart(LiveParts(c, f)[i], DumpIds()[7 + i])
  {
    hide TcpAttrs, Status;
  }

  lemma CountersSorted(c: Conn)
    ensures IsPart(AcctAttrs(c), 9) && IsPart(TstampAttrs(c), 20)
  {
  }

  lemma NamesSorted(c: Conn)
    ensures IsPart(HelpAttrs(c), 5) && IsPart(LabelAttrs(c), 22)
  {
    hide LabelBytes;
  }

  lemma NumbersSorted(c: Conn)
    ensures IsPart(SeqAdjAttrs(c), 15) && IsPart(SynProxyAttrs(c), 24)
  {
    hide Status, U32Attr;
  }

  lemma WhenSorted(on: bool, attrs: seq<Attr>, p: nat)
    requires IsPart(attrs, p)
    ensures IsPart(When(on, attrs), p)
  {
  }

  lemma ExtSorted(c: Conn, ext: bool, i: nat)
    requires i < 6
    ensures IsPart(ExtParts(c, ext)[i], DumpIds()[9 + i])
  {
    hide AcctAttrs, TstampAttrs, HelpAttrs, LabelAttrs, SeqAdjAttrs, SynProxyAttrs, IsPart, When;
    CountersSorted(c);
    NamesSorted(c);
    NumbersSorted(c);
    WhenSorted(ext, AcctAttrs(c), 9);
    WhenSorted(ext, TstampAttrs(c), 20);
    WhenSorted(ext, HelpAttrs(c), 5);
    WhenSorted(ext, LabelAttrs(c), 22);
    WhenSorted(ext, SeqAdjAttrs(c), 15);
    WhenSorted(ext, SynProxyAttrs(c), 24);
  }

  lemma DumpIdsDiffer()
    ensures forall i, j :: 0 <= i < j < 15 ==> DumpIds()[i] != DumpIds()[j]
    ensures forall i :: 0 <= i < 15 ==> 1 <= DumpIds()[i] <= 24
  {
  }

  lemma DumpSortedAt(c: Conn, ext: bool, f: Flags, i: nat)
    requires i < 15
    ensures IsPart(DumpParts(c, ext, f)[i], DumpIds()[i])
  {
    hide FirstParts, LiveParts, ExtParts, IsPart, DumpIds;
    if i < 7 {
      FirstSorted(c, i);
    } else if i < 9 {
      LiveSorted(c, f, i - 7);
    } else {
      ExtSorted(c, ext, i - 9);
    }
  }

  lemma DumpSorted(c: Conn, ext: bool, f: Flags)
    ensures Sorted(DumpParts(c, ext, f), DumpIds())
    ensures forall i :: 0 <= i < 15 ==> 1 <= DumpIds()[i] <= 24
  {
    hide IsPart, DumpParts, DumpIds;
    DumpIdsDiffer();
    forall i | 0 <= i < 15
      ensures IsPart(DumpParts(c, ext, f)[i], DumpIds()[i])
    {
      DumpSortedAt(c, ext, f, i);
    }
  }

  /** Each part of a dump message is read from its bytes. */
  lemma DumpHolds(c: Conn, ext: bool, f: Flags, j: nat)
    requires SizeAll(DumpAttrs(c, ext, f)) < 0x1_0000 && j < 15
    ensures Holds(Parse(EncodeAll(DumpAttrs(c, ext, f)), CTA_MAX), DumpParts(c, ext, f)[j], DumpIds()[j])
  {
    hide Flatten, Parse, EncodeAll, SizeAll, DumpAttrs, Sorted, Holds, DumpParts, DumpIds;
    DumpFlattens(c, ext, f);
    DumpSorted(c, ext, f);
    PartHolds(DumpParts(c, ext, f), DumpIds(), j);
  }

  /** The parts by their numbers. */
  lemma DumpHoldsInfo(c: Conn, ext: bool, f: Flags)
    requires SizeAll(DumpAttrs(c, ext, f)) < 0x1_0000
    ensures var tb, live := Parse(EncodeAll(DumpAttrs(c, ext, f)), 26), c.info.status / 0x4000 % 2 == 0;
            && Holds(tb, StatusAttrs(c), 3) && Holds(tb, MarkAttrs(c, true), 8)
            && Holds(tb, When(true, SecctxAttrs(c)), 19)
            && Holds(tb, IdAttrs(c), 12) && Holds(tb, UseAttrs(c), 11) && Holds(tb, When(true, MasterAttrs(c)), 14)
            && Holds(tb, When(live, TimeoutAttrs(c, false)), 7) && Holds(tb, When(live, ProtoInfoAttrs(c, false, f)), 4)
  {
    hide Parse, EncodeAll, SizeAll, DumpAttrs, Holds, When, StatusAttrs, MarkAttrs, SecctxAttrs, IdAttrs, UseAttrs,
         MasterAttrs, TimeoutAttrs, ProtoInfoAttrs, ExtParts;
    DumpHolds(c, ext, f, 1);
    DumpHolds(c, ext, f, 2);
    DumpHolds(c, ext, f, 3);
    DumpHolds(c, ext, f, 4);
    DumpHolds(c, ext, f, 5);
    DumpHolds(c, ext, f, 6);
    DumpHolds(c, ext, f, 7);
    DumpHolds(c, ext, f, 8);
  }

  lemma DumpHoldsExt(c: Conn, ext: bool, f: Flags)
    requires SizeAll(DumpAttrs(c, ext, f)) < 0x1_0000
    ensures var tb := Parse(EncodeAll(DumpAttrs(c, ext, f)), 26);
            && Holds(tb, When(ext, AcctAttrs(c)), 9) && Holds(tb, When(ext, TstampAttrs(c)), 20)
            && Holds(tb, When(ext, HelpAttrs(c)), 5) && Holds(tb, When(ext, LabelAttrs(c)), 22)
            && Holds(tb, When(ext, SeqAdjAttrs(c)), 15) && Holds(tb, When(ext, SynProxyAttrs(c)), 24)
  {
    hide Parse, EncodeAll, SizeAll, DumpAttrs, Holds, When, AcctAttrs, TstampAttrs, HelpAttrs, LabelAttrs, SeqAdjAttrs,
         SynProxyAttrs, FirstParts, LiveParts;
    DumpHolds(c, ext, f, 9);
    DumpHolds(c, ext, f, 10);
    DumpHolds(c, ext, f, 11);
    DumpHolds(c, ext, f, 12);
    DumpHolds(c, ext, f, 13);
    DumpHolds(c, ext, f, 14);
  }

  /**
    What a dump message says: status, mark, identifier, references, timeout and security label are the connection's;
    the timeout is left out of an offloaded connection's.
   */
  lemma DumpSaysInfo(c: Conn, ext: bool, f: Flags)
    requires SizeAll(DumpAttrs(c, ext, f)) < 0x1_0000
    ensures var tb, live := Parse(EncodeAll(DumpAttrs(c, ext, f)), 26), c.info.status / 0x4000 % 2 == 0;
            && Number(tb, 3) == Some(c.info.status) && Number(tb, 8) == Some(c.info.mark)
            && Number(tb, 12) == Some(c.id) && Number(tb, 11) == Some(c.use)
            && Number(tb, 7) == (if live then Some(c.timeout) else None)
            && Inner(tb, 19, 1) == (if c.secctx.Some? then Some(c.secctx.value.text + [0]) else None)
  {
    hide Parse, EncodeAll, SizeAll, DumpAttrs, Holds, Number, Inner, When, TimeoutAttrs, SecctxAttrs;
    var tb := Parse(EncodeAll(DumpAttrs(c, ext, f)), CTA_MAX);
    DumpHoldsInfo(c, ext, f);
    StatusSays(c, tb);
    MarkSays(c, true, tb);
    SecctxSays(c, true, tb);
    IdSays(c, tb);
    UseSays(c, tb);
    TimeoutSays(c, c.info.status / 0x4000 % 2 == 0, false, tb);
  }

  /** The master's tuple, and what the protocol says, as the parts of a dump message that are nests of nests. */
  lemma DumpSaysNests(c: Conn, ext: bool, f: Flags, z: Zone)
    requires SizeAll(DumpAttrs(c, ext, f)) < 0x1_0000 && Complete(c.master) && c.master.dir == Original
    ensures var tb := Parse(EncodeAll(DumpAttrs(c, ext, f)), 26);
            && (14 in tb <==> c.info.status % 2 == 1)
            && (c.info.status % 2 == 1 ==>
                  ParseTupleFilter(tb[14], 14, c.master.l3num, z, ALL_FLAGS) == Ok((c.master, z)))
    ensures var tb, live := Parse(EncodeAll(DumpAttrs(c, ext, f)), 26), c.info.status / 0x4000 % 2 == 0;
            var own := f.filtered && f.exportTcp && c.info.orig.protonum == 6;
            && (live && own ==> Inner(tb, 4, 1) == Some(EncodeAll(TcpAttrs(c.tcp, false))))
            && (live && !own && c.hook.Some? ==> Lookup(tb, 4) == Some(EncodeAll(c.hook.value.normal)))
            && (!live || (!own && c.hook.None?) ==> 4 !in tb)
  {
    DumpHoldsInfo(c, ext, f);
    var tb, live := Parse(EncodeAll(DumpAttrs(c, ext, f)), 26), c.info.status / 0x4000 % 2 == 0;
    hide Parse, EncodeAll, SizeAll, DumpAttrs, Holds, Number, Inner, Complete, ParseTupleFilter, TcpAttrs;
    MasterSays(c, true, tb, z);
    ProtoInfoSays(c, live, false, f, tb);
  }

  /** What the extensions of a connection add to a dump message: each is there exactly if the connection has it. */
  ghost predicate SaysExt(tb: Table, c: Conn, ext: bool) {
    && (if ext && c.acct.Some? then
          var n := c.acct.value;
          && Inner(tb, 9, 1) == Some(n.orig.packets) && Inner(tb, 9, 2) == Some(n.orig.bytes)
          && Inner(tb, 10, 1) == Some(n.reply.packets) && Inner(tb, 10, 2) == Some(n.reply.bytes)
        else 9 !in tb && 10 !in tb)
    && Inner(tb, 20, 1) == (if ext && c.tstamp.Some? then Some(c.tstamp.value.start) else None)
    && Inner(tb, 20, 2) == (if ext && c.tstamp.Some? then c.tstamp.value.stop else None)
    && Inner(tb, 5, 1) == (match c.help case Some(Some(name)) => if ext then Some(name + [0]) else None case _ => None)
    && Lookup(tb, 22) ==
       (if ext && c.labels.Some? && (exists i :: 0 <= i < |c.labels.value| && c.labels.value[i] != 0)
        then Some(LabelBytes(c.labels.value)) else None)
    && (if ext && c.seqadj.Some? && c.info.status / 0x40 % 2 == 1 then
          var (o, r) := c.seqadj.value;
          && InnerNumber(tb, 15, 1) == Some(o.pos) && InnerNumber(tb, 15, 2) == Some(o.before)
          && InnerNumber(tb, 15, 3) == Some(o.after) && InnerNumber(tb, 16, 1) == Some(r.pos)
          && InnerNumber(tb, 16, 2) == Some(r.before) && InnerNumber(tb, 16, 3) == Some(r.after)
        else 15 !in tb && 16 !in tb)
    && (if ext && c.synproxy.Some? then
          var s := c.synproxy.value;
          && InnerNumber(tb, 24, 1) == Some(s.isn) && InnerNumber(tb, 24, 2) == Some(s.its)
          && InnerNumber(tb, 24, 3) == Some(s.tsoff)
        else 24 !in tb)
  }

  lemma DumpSaysExt(c: Conn, ext: bool, f: Flags)
    requires SizeAll(DumpAttrs(c, ext, f)) < 0x1_0000
    ensures SaysExt(Parse(EncodeAll(DumpAttrs(c, ext, f)), 26), c, ext)
  {
    hide Parse, EncodeAll, SizeAll, DumpAttrs, Holds, InnerNumber, Inner, LabelBytes, When, AcctAttrs,
         TstampAttrs, HelpAttrs, LabelAttrs, SeqAdjAttrs, SynProxyAttrs;
    var tb := Parse(EncodeAll(DumpAttrs(c, ext, f)), CTA_MAX);
    DumpHoldsExt(c, ext, f);
    AcctSays(c, ext, tb);
    TstampSays(c, ext, tb);
    HelpSays(c, ext, tb);
    LabelsSay(c, ext, tb);
    SeqAdjSays(c, ext, tb);
    SynProxySays(c, ext, tb);
  }
}
