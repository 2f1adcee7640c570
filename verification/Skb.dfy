/**
  The writers, as they append to a socket buffer in place: attributes are
  copied in if there is room, a nest is opened by its header and closed by
  patching the header's length, and a message that does not fit is cut off.
 */
module Skb {
  import opened Conntrack
  import opened Netlink
  import opened CtMessage
  import opened Tracker

  /**
    What a writer of `attrs` did to a buffer of `cap` bytes: it succeeds exactly when they fit, and then they
    are appended; in any case what was there before is still there.
   */
  predicate Wrote(pre: seq<Byte>, post: seq<Byte>, cap: nat, ok: bool, attrs: seq<Attr>) {
    && pre <= post
    && (ok <==> |pre| + SizeAll(attrs) <= cap)
    && (ok ==> post == pre + EncodeAll(attrs))
  }

  lemma WroteNothing(pre: seq<Byte>, cap: nat)
    requires |pre| <= cap
    ensures Wrote(pre, pre, cap, true, [])
  {
  }

  lemma WroteOne(pre: seq<Byte>, cap: nat, a: Attr)
    requires |pre| + Size(a) <= cap
    ensures Wrote(pre, pre + Encode(a), cap, true, [a])
  {
    EncodeOne(a);
  }

  /** One writer after another. */
  lemma WroteBoth(pre: seq<Byte>, mid: seq<Byte>, post: seq<Byte>, cap: nat, ok: bool, a: seq<Attr>, b: seq<Attr>)
    requires Wrote(pre, mid, cap, true, a) && Wrote(mid, post, cap, ok, b)
    ensures Wrote(pre, post, cap, ok, a + b)
  {
    EncodeConcat(a, b);
    EncodeAllSize(a);
    hide EncodeAll, SizeAll;
    var x, y := EncodeAll(a), EncodeAll(b);
    assert mid == pre + x;
    assert pre <= post;
    if ok {
      assert post == (pre + x) + y == pre + (x + y);
    }
  }

  /** A failed writer, whatever would have come after it. */
  lemma WroteFailed(pre: seq<Byte>, post: seq<Byte>, cap: nat, a: seq<Attr>, b: seq<Attr>)
    requires Wrote(pre, post, cap, false, a)
    ensures Wrote(pre, post, cap, false, a + b)
  {
    EncodeConcat(a, b);
  }

  /** The next writer, which runs only if the ones before it succeeded. */
  lemma Next(pre: seq<Byte>, mid: seq<Byte>, post: seq<Byte>, cap: nat, was: bool, ok: bool, a: seq<Attr>, b: seq<Attr>)
    requires Wrote(pre, mid, cap, was, a)
    requires if was then Wrote(mid, post, cap, ok, b) else post == mid && !ok
    ensures Wrote(pre, post, cap, ok, a + b)
  {
    if was {
      WroteBoth(pre, mid, post, cap, ok, a, b);
    } else {
      WroteFailed(pre, mid, cap, a, b);
    }
  }

  /** A nest that was opened, and whose children did not fit. */
  lemma NestFailed(pre: seq<Byte>, post: seq<Byte>, cap: nat, kind: nat, kids: seq<Attr>)
    requires Wrote(pre + Header(NLA_HDRLEN, kind + NLA_F_NESTED), post, cap, false, kids)
    ensures Wrote(pre, post, cap, false, [Nest(kind, kids)])
  {
    EncodeOne(Nest(kind, kids));
  }

  /** A nest that could not even be opened. */
  lemma NestTooLong(pre: seq<Byte>, cap: nat, kind: nat, kids: seq<Attr>)
    requires |pre| + NLA_HDRLEN > cap
    ensures Wrote(pre, pre, cap, false, [Nest(kind, kids)])
  {
    EncodeOne(Nest(kind, kids));
  }

  /** A nest: header, children, length patched at the end. */
  lemma NestWritten(pre: seq<Byte>, open: seq<Byte>, body: seq<Byte>, post: seq<Byte>, cap: nat, kind: nat, ok: bool,
                    kids: seq<Attr>)
    requires open == pre + Header(NLA_HDRLEN, kind + NLA_F_NESTED) && |open| <= cap
    requires Wrote(open, body, cap, ok, kids)
    requires post == pre + Header(|body| - |pre|, kind + NLA_F_NESTED) + body[|open|..]
    ensures Wrote(pre, post, cap, ok, [Nest(kind, kids)])
  {
    var a := Nest(kind, kids);
    EncodeOne(a);
    EncodeAllSize(kids);
    assert Encode(a) == Header(NLA_HDRLEN + |EncodeAll(kids)|, kind + NLA_F_NESTED) + EncodeAll(kids);
    assert Size(a) == NLA_HDRLEN + SizeAll(kids);
    hide EncodeAll, SizeAll, Encode, Size, Header;
    if ok {
      assert body[|open|..] == EncodeAll(kids);
      assert post == pre + (Header(NLA_HDRLEN + |EncodeAll(kids)|, kind + NLA_F_NESTED) + EncodeAll(kids));
    }
  }

  /** The header a nest was opened with is still where it was. */
  lemma OpenedAt(open: seq<Byte>, body: seq<Byte>, cap: nat, ok: bool, kids: seq<Attr>, at: nat)
    requires Wrote(open, body, cap, ok, kids) && at + NLA_HDRLEN == |open|
    ensures at + NLA_HDRLEN <= |body| && body[at..at + NLA_HDRLEN] == open[at..] && body[..at] == open[..at]
  {
  }

  lemma TcpAttrsSplit(t: TcpState, destroy: bool)
    ensures |TcpAttrs(t, false)| > 0
    ensures TcpAttrs(t, destroy) ==
            [Leaf(CTA_PROTOINFO_TCP_STATE, [t.state])] + if destroy then [] else TcpAttrs(t, false)[1..]
  {
  }

  class Buffer {
    const cap: nat
    var data: seq<Byte>

    constructor (cap: nat)
      ensures data == [] && this.cap == cap
    {
      this.cap := cap;
      data := [];
    }

    /** nla_put. */
    method NlaPut(kind: nat, payload: seq<Byte>) returns (ok: bool)
      requires |data| <= cap
      modifies this`data
      ensures |data| <= cap && Wrote(old(data), data, cap, ok, [Leaf(kind, payload)])
    {
      var a := Leaf(kind, payload);
      EncodeOne(a);
      EncodeSize(a);
      if |data| + TotalSize(|payload|) > cap {
        return false;
      }
      WroteOne(data, cap, a);
      data := data + Encode(a);
      return true;
    }

    /** nla_nest_start: an empty attribute whose length is patched later. */
    method NestStart(kind: nat, ghost kids: seq<Attr>) returns (ok: bool, at: nat)
      requires |data| <= cap
      modifies this`data
      ensures |data| <= cap && at == |old(data)|
      ensures ok ==> data == old(data) + Header(NLA_HDRLEN, kind + NLA_F_NESTED)
      ensures !ok ==> Wrote(old(data), data, cap, false, [Nest(kind, kids)])
    {
      at := |data|;
      ok := |data| + NLA_HDRLEN <= cap;
      if ok {
        data := data + Header(NLA_HDRLEN, kind + NLA_F_NESTED);
      } else {
        NestTooLong(data, cap, kind, kids);
      }
    }

    /** nla_nest_end: the length of the nest is what was appended since it was opened. */
    method NestEnd(at: nat, ghost pre: seq<Byte>, ghost kind: nat, ghost ok: bool, ghost kids: seq<Attr>)
      requires |data| <= cap && at == |pre| && at + NLA_HDRLEN <= cap
      requires Wrote(pre + Header(NLA_HDRLEN, kind + NLA_F_NESTED), data, cap, ok, kids)
      modifies this`data
      ensures |data| <= cap && Wrote(pre, data, cap, ok, [Nest(kind, kids)])
    {
      ghost var was, open := data, pre + Header(NLA_HDRLEN, kind + NLA_F_NESTED);
      OpenedAt(open, data, cap, ok, kids, at);
      data := data[..at] + Le16(|data| - at) + data[at + 2..];
      assert was[at + 2..] == was[at + 2..at + NLA_HDRLEN] + was[at + NLA_HDRLEN..];
      assert was[at + 2..at + NLA_HDRLEN] == open[at..][2..] == Le16(kind + NLA_F_NESTED);
      NestWritten(pre, open, was, data, cap, kind, ok, kids);
    }

    method PutU32(kind: nat, n: U32) returns (ok: bool)
      requires |data| <= cap
      modifies this`data
      ensures |data| <= cap && Wrote(old(data), data, cap, ok, [U32Attr(kind, n)])
    {
      ok := NlaPut(kind, Be32(n));
    }

    method PutNothing() returns (ok: bool)
      requires |data| <= cap
      ensures ok && Wrote(data, data, cap, ok, [])
    {
      WroteNothing(data, cap);
      ok := true;
    }

    /** The writer of a layer-4 protocol: some attributes of its own, appended if they fit. */
    method PutAttrs(attrs: seq<Attr>) returns (ok: bool)
      requires |data| <= cap
      modifies this`data
      ensures |data| <= cap && Wrote(old(data), data, cap, ok, attrs)
      decreases attrs
    {
      hide Wrote;
      if attrs == [] {
        ok := PutNothing();
        return;
      }
      match attrs[0] {
        case Leaf(kind, payload) =>
          ok := NlaPut(kind, payload);
        case Nest(kind, kids) =>
          var at;
          ok, at := NestStart(kind, kids);
          if ok {
            ok := PutAttrs(kids);
            NestEnd(at, old(data), kind, ok, kids);
          }
      }
      ghost var mid, was := data, ok;
      if ok {
        ok := PutAttrs(attrs[1..]);
      }
      assert attrs == [attrs[0]] + attrs[1..];
      Next(old(data), mid, data, cap, was, ok, [attrs[0]], attrs[1..]);
    }

    /** The protocol tuple hooks: a pair of ports, or an ICMP identifier, type and code. */
    method PutL4(t: Tuple) returns (ok: bool)
      requires |data| <= cap
      modifies this`data
      ensures |data| <= cap && Wrote(old(data), data, cap, ok, L4Attrs(t))
    {
      hide Wrote;
      ok := PutAttrs(L4Attrs(t));
    }

    /** The pair of addresses of the tuple's family. */
    method PutAddresses(t: Tuple) returns (ok: bool)
      requires |data| <= cap
      modifies this`data
      ensures |data| <= cap && Wrote(old(data), data, cap, ok, IpAttr(t).kids)
    {
      hide Wrote;
      if t.l3num == NFPROTO_IPV4 && t.src.V4? && t.dst.V4? {
        ok := PutAttrs([Leaf(CTA_IP_V4_SRC, t.src.bytes), Leaf(CTA_IP_V4_DST, t.dst.bytes)]);
      } else if t.l3num == NFPROTO_IPV6 && t.src.V6? && t.dst.V6? {
        ok := PutAttrs([Leaf(CTA_IP_V6_SRC, t.src.bytes), Leaf(CTA_IP_V6_DST, t.dst.bytes)]);
      } else {
        ok := PutNothing();
      }
    }

    /** The nest is closed even if the addresses did not fit. */
    method DumpTuplesIp(t: Tuple) returns (ok: bool)
      requires |data| <= cap
      modifies this`data
      ensures |data| <= cap && Wrote(old(data), data, cap, ok, [Nest(CTA_TUPLE_IP, IpAttr(t).kids)])
    {
      hide Wrote;
      var at;
      ok, at := NestStart(CTA_TUPLE_IP, IpAttr(t).kids);
      if !ok {
        return;
      }
      ghost var open := data;
      ok := PutAddresses(t);
      NestEnd(at, old(data), CTA_TUPLE_IP, ok, IpAttr(t).kids);
    }

    /** The protocol number, then what the protocol adds. */
    method DumpTuplesProto(t: Tuple) returns (ok: bool)
      requires |data| <= cap
      modifies this`data
      ensures |data| <= cap &&
              Wrote(old(data), data, cap, ok, [Nest(CTA_TUPLE_PROTO, [Leaf(CTA_PROTO_NUM, [t.protonum])] + L4Attrs(t))])
    {
      hide Wrote;
      var at;
      ok, at := NestStart(CTA_TUPLE_PROTO, [Leaf(CTA_PROTO_NUM, [t.protonum])] + L4Attrs(t));
      if !ok {
        return;
      }
      ghost var open := data;
      ok := NlaPut(CTA_PROTO_NUM, [t.protonum]);
      ghost var acc := [Leaf(CTA_PROTO_NUM, [t.protonum])];
      ghost var mid, was := data, ok;
      if ok {
        ok := PutL4(t);
      }
      Next(open, mid, data, cap, was, ok, acc, L4Attrs(t));
      NestEnd(at, old(data), CTA_TUPLE_PROTO, ok, [Leaf(CTA_PROTO_NUM, [t.protonum])] + L4Attrs(t));
    }

    method DumpTuples(t: Tuple) returns (ok: bool)
      requires |data| <= cap
      modifies this`data
      ensures |data| <= cap && Wrote(old(data), data, cap, ok, TupleAttrs(t))
    {
      hide Wrote;
      ok := DumpTuplesIp(t);
      ghost var mid, was := data, ok;
      if ok {
        ok := DumpTuplesProto(t);
      }
      Next(old(data), mid, data, cap, was, ok, [IpAttr(t)], [ProtoAttr(t)]);
      assert [IpAttr(t)] + [ProtoAttr(t)] == TupleAttrs(t);
    }

    /** The zone id, if it is not the default and its direction is the one asked for. */
    method DumpZoneId(kind: nat, z: Zone, dir: Byte) returns (ok: bool)
      requires |data| <= cap
      modifies this`data
      ensures |data| <= cap && Wrote(old(data), data, cap, ok, ZoneAttrs(kind, z, dir))
    {
      hide Wrote;
      if z.id == NF_CT_DEFAULT_ZONE_ID || z.dir != dir {
        ok := PutNothing();
      } else {
        ok := NlaPut(kind, Be16(z.id));
      }
    }

    /** ctnetlink_dump_status. */
    method DumpStatus(c: Conn) returns (ok: bool)
      requires |data| <= cap
      modifies this`data
      ensures |data| <= cap && Wrote(old(data), data, cap, ok, StatusAttrs(c))
    {
      hide Wrote;
      ok := PutU32(CTA_STATUS, c.info.status);
    }

    /** ctnetlink_dump_id. */
    method DumpId(c: Conn) returns (ok: bool)
      requires |data| <= cap
      modifies this`data
      ensures |data| <= cap && Wrote(old(data), data, cap, ok, IdAttrs(c))
    {
      hide Wrote;
      ok := PutU32(CTA_ID, c.id);
    }

    /** ctnetlink_dump_use. */
    method DumpUse(c: Conn) returns (ok: bool)
      requires |data| <= cap
      modifies this`data
      ensures |data| <= cap && Wrote(old(data), data, cap, ok, UseAttrs(c))
    {
      hide Wrote;
      ok := PutU32(CTA_USE, c.use);
    }

    /** ctnetlink_dump_timeout. */
    method DumpTimeout(c: Conn, skipZero: bool) returns (ok: bool)
      requires |data| <= cap
      modifies this`data
      ensures |data| <= cap && Wrote(old(data), data, cap, ok, TimeoutAttrs(c, skipZero))
    {
      hide Wrote;
      if skipZero && c.timeout == 0 {
        ok := PutNothing();
      } else {
        ok := PutU32(CTA_TIMEOUT, c.timeout);
      }
    }

    /** ctnetlink_dump_mark. */
    method DumpMark(c: Conn, always: bool) returns (ok: bool)
      requires |data| <= cap
      modifies this`data
      ensures |data| <= cap && Wrote(old(data), data, cap, ok, MarkAttrs(c, always))
    {
      hide Wrote;
      if c.info.mark == 0 && !always {
        ok := PutNothing();
      } else {
        ok := PutU32(CTA_MARK, c.info.mark);
      }
    }

    /** The security label, as a string. */
    method DumpSecctxNest(s: SecCtx) returns (ok: bool)
      requires |data| <= cap
      modifies this`data
      ensures |data| <= cap && Wrote(old(data), data, cap, ok, [Nest(CTA_SECCTX, [Leaf(1, s.text + [0])])])
    {
      hide Wrote;
      var at;
      ok, at := NestStart(CTA_SECCTX, [Leaf(1, s.text + [0])]);
      if !ok {
        return;
      }
      ghost var open := data;
      ok := NlaPut(1, s.text + [0]);
      if !ok {
        NestFailed(old(data), data, cap, CTA_SECCTX, [Leaf(1, s.text + [0])]);
        return;
      }
      NestEnd(at, old(data), CTA_SECCTX, ok, [Leaf(1, s.text + [0])]);
    }

    /** ctnetlink_dump_secctx. */
    method DumpSecctx(c: Conn) returns (ok: bool)
      requires |data| <= cap
      modifies this`data
      ensures |data| <= cap && Wrote(old(data), data, cap, ok, SecctxAttrs(c))
    {
      hide Wrote;
      match c.secctx {
        case None => ok := PutNothing();
        case Some(s) => ok := DumpSecctxNest(s);
      }
    }

    /** The tuple of the master connection. */
    method DumpMasterNest(c: Conn) returns (ok: bool)
      requires |data| <= cap
      modifies this`data
      ensures |data| <= cap && Wrote(old(data), data, cap, ok, [Nest(CTA_TUPLE_MASTER, TupleAttrs(c.master))])
    {
      hide Wrote;
      var at;
      ok, at := NestStart(CTA_TUPLE_MASTER, TupleAttrs(c.master));
      if !ok {
        return;
      }
      ghost var open := data;
      ok := DumpTuples(c.master);
      if !ok {
        NestFailed(old(data), data, cap, CTA_TUPLE_MASTER, TupleAttrs(c.master));
        return;
      }
      NestEnd(at, old(data), CTA_TUPLE_MASTER, ok, TupleAttrs(c.master));
    }

    /** ctnetlink_dump_master. */
    method DumpMaster(c: Conn) returns (ok: bool)
      requires |data| <= cap
      modifies this`data
      ensures |data| <= cap && Wrote(old(data), data, cap, ok, MasterAttrs(c))
    {
      hide Wrote;
      if Status(c, IPS_EXPECTED) {
        ok := DumpMasterNest(c);
      } else {
        ok := PutNothing();
      }
    }

    /** dump_counters, after the counters were read. */
    method DumpCounters(kind: nat, n: Counters) returns (ok: bool)
      requires |data| <= cap
      modifies this`data
      ensures |data| <= cap && Wrote(old(data), data, cap, ok, [Nest(kind, [Leaf(1, n.packets), Leaf(2, n.bytes)])])
    {
      hide Wrote;
      var at;
      ok, at := NestStart(kind, [Leaf(1, n.packets), Leaf(2, n.bytes)]);
      if !ok {
        return;
      }
      ghost var open := data;
      ok := PutAttrs([Leaf(1, n.packets), Leaf(2, n.bytes)]);
      if !ok {
        NestFailed(old(data), data, cap, kind, [Leaf(1, n.packets), Leaf(2, n.bytes)]);
        return;
      }
      NestEnd(at, old(data), kind, ok, [Leaf(1, n.packets), Leaf(2, n.bytes)]);
    }

    /** ctnetlink_dump_acct. */
    method DumpAcct(c: Conn) returns (ok: bool)
      requires |data| <= cap
      modifies this`data
      ensures |data| <= cap && Wrote(old(data), data, cap, ok, AcctAttrs(c))
    {
      hide Wrote;
      if c.acct.None? {
        ok := PutNothing();
        return;
      }
      var a := c.acct.value;
      ok := DumpCounters(CTA_COUNTERS_ORIG, a.orig);
      ghost var mid, was := data, ok;
      if ok {
        ok := DumpCounters(CTA_COUNTERS_REPLY, a.reply);
      }
      Next(old(data), mid, data, cap, was, ok, [CounterAttr(CTA_COUNTERS_ORIG, a.orig)],
           [CounterAttr(CTA_COUNTERS_REPLY, a.reply)]);
      assert [CounterAttr(CTA_COUNTERS_ORIG, a.orig)] + [CounterAttr(CTA_COUNTERS_REPLY, a.reply)] == AcctAttrs(c);
    }

    /** The stop time, once there is one. */
    method PutStop(t: Tstamp) returns (ok: bool)
      requires |data| <= cap
      modifies this`data
      ensures |data| <= cap &&
              Wrote(old(data), data, cap, ok, match t.stop case None => [] case Some(stop) => [Leaf(2, stop)])
    {
      hide Wrote;
      match t.stop {
        case None => ok := PutNothing();
        case Some(stop) => ok := NlaPut(2, stop);
      }
    }

    /** Start, and stop if the connection has ended. */
    method DumpTimestampNest(t: Tstamp) returns (ok: bool)
      requires |data| <= cap
      modifies this`data
      ensures |data| <= cap && Wrote(old(data), data, cap, ok, [Nest(CTA_TIMESTAMP, StampAttrs(t))])
    {
      hide Wrote;
      var at;
      ok, at := NestStart(CTA_TIMESTAMP, StampAttrs(t));
      if !ok {
        return;
      }
      ghost var open := data;
      ok := NlaPut(1, t.start);
      ghost var acc := [Leaf(1, t.start)];
      ghost var mid, was := data, ok;
      if ok {
        ok := PutStop(t);
      }
      Next(open, mid, data, cap, was, ok, acc, match t.stop case None => [] case Some(stop) => [Leaf(2, stop)]);
      if !ok {
        NestFailed(old(data), data, cap, CTA_TIMESTAMP, StampAttrs(t));
        return;
      }
      NestEnd(at, old(data), CTA_TIMESTAMP, ok, StampAttrs(t));
    }

    /** ctnetlink_dump_timestamp. */
    method DumpTimestamp(c: Conn) returns (ok: bool)
      requires |data| <= cap
      modifies this`data
      ensures |data| <= cap && Wrote(old(data), data, cap, ok, TstampAttrs(c))
    {
      hide Wrote;
      match c.tstamp {
        case None => ok := PutNothing();
        case Some(t) => ok := DumpTimestampNest(t);
      }
    }

    /** The helper's name, as a string; helpers with data of their own are not modelled. */
    method DumpHelpNest(name: seq<Byte>) returns (ok: bool)
      requires |data| <= cap
      modifies this`data
      ensures |data| <= cap && Wrote(old(data), data, cap, ok, [Nest(CTA_HELP, [Leaf(1, name + [0])])])
    {
      hide Wrote;
      var at;
      ok, at := NestStart(CTA_HELP, [Leaf(1, name + [0])]);
      if !ok {
        return;
      }
      ghost var open := data;
      ok := NlaPut(1, name + [0]);
      if !ok {
        NestFailed(old(data), data, cap, CTA_HELP, [Leaf(1, name + [0])]);
        return;
      }
      NestEnd(at, old(data), CTA_HELP, ok, [Leaf(1, name + [0])]);
    }

    /** ctnetlink_dump_helpinfo. */
    method DumpHelpinfo(c: Conn) returns (ok: bool)
      requires |data| <= cap
      modifies this`data
      ensures |data| <= cap && Wrote(old(data), data, cap, ok, HelpAttrs(c))
    {
      hide Wrote;
      match c.help {
        case Some(Some(name)) => ok := DumpHelpNest(name);
        case _ => ok := PutNothing();
      }
    }

    /** ctnetlink_dump_labels: all of them, as soon as one word is not zero. */
    method DumpLabels(c: Conn) returns (ok: bool)
      requires |data| <= cap
      modifies this`data
      ensures |data| <= cap && Wrote(old(data), data, cap, ok, LabelAttrs(c))
    {
      hide Wrote;
      if c.labels.None? {
        ok := PutNothing();
        return;
      }
      var words := c.labels.value;
      for i := 0 to |words|
        invariant data == old(data)
        invariant forall j :: 0 <= j < i ==> words[j] == 0
      {
        if words[i] != 0 {
          ok := NlaPut(CTA_LABELS, LabelBytes(words));
          return;
        }
      }
      ok := PutNothing();
    }

    /** dump_ct_seq_adj. */
    method DumpOneSeqAdj(kind: nat, s: SeqAdj) returns (ok: bool)
      requires |data| <= cap
      modifies this`data
      ensures |data| <= cap &&
              Wrote(old(data), data, cap, ok,
                    [Nest(kind, [U32Attr(1, s.pos), U32Attr(2, s.before), U32Attr(3, s.after)])])
    {
      hide Wrote;
      var at;
      ok, at := NestStart(kind, [U32Attr(1, s.pos), U32Attr(2, s.before), U32Attr(3, s.after)]);
      if !ok {
        return;
      }
      ghost var open := data;
      ok := PutAttrs([U32Attr(1, s.pos), U32Attr(2, s.before), U32Attr(3, s.after)]);
      if !ok {
        NestFailed(old(data), data, cap, kind, [U32Attr(1, s.pos), U32Attr(2, s.before), U32Attr(3, s.after)]);
        return;
      }
      NestEnd(at, old(data), kind, ok, [U32Attr(1, s.pos), U32Attr(2, s.before), U32Attr(3, s.after)]);
    }

    /** ctnetlink_dump_ct_seq_adj. */
    method DumpSeqAdj(c: Conn) returns (ok: bool)
      requires |data| <= cap
      modifies this`data
      ensures |data| <= cap && Wrote(old(data), data, cap, ok, SeqAdjAttrs(c))
    {
      hide Wrote;
      if !Status(c, IPS_SEQ_ADJUST) || c.seqadj.None? {
        ok := PutNothing();
        return;
      }
      var (o, r) := c.seqadj.value;
      ok := DumpOneSeqAdj(CTA_SEQ_ADJ_ORIG, o);
      ghost var mid, was := data, ok;
      if ok {
        ok := DumpOneSeqAdj(CTA_SEQ_ADJ_REPLY, r);
      }
      Next(old(data), mid, data, cap, was, ok, [SeqAdjAttr(CTA_SEQ_ADJ_ORIG, o)], [SeqAdjAttr(CTA_SEQ_ADJ_REPLY, r)]);
      assert [SeqAdjAttr(CTA_SEQ_ADJ_ORIG, o)] + [SeqAdjAttr(CTA_SEQ_ADJ_REPLY, r)] == SeqAdjAttrs(c);
    }

    /** Three numbers. */
    method DumpSynproxyNest(s: SynProxy) returns (ok: bool)
      requires |data| <= cap
      modifies this`data
      ensures |data| <= cap &&
              Wrote(old(data), data, cap, ok,
                    [Nest(CTA_SYNPROXY, [U32Attr(1, s.isn), U32Attr(2, s.its), U32Attr(3, s.tsoff)])])
    {
      hide Wrote;
      var at;
      ok, at := NestStart(CTA_SYNPROXY, [U32Attr(1, s.isn), U32Attr(2, s.its), U32Attr(3, s.tsoff)]);
      if !ok {
        return;
      }
      ghost var open := data;
      ok := PutAttrs([U32Attr(1, s.isn), U32Attr(2, s.its), U32Attr(3, s.tsoff)]);
      if !ok {
        NestFailed(old(data), data, cap, CTA_SYNPROXY, [U32Attr(1, s.isn), U32Attr(2, s.its), U32Attr(3, s.tsoff)]);
        return;
      }
      NestEnd(at, old(data), CTA_SYNPROXY, ok, [U32Attr(1, s.isn), U32Attr(2, s.its), U32Attr(3, s.tsoff)]);
    }

    /** ctnetlink_dump_ct_synproxy. */
    method DumpSynproxy(c: Conn) returns (ok: bool)
      requires |data| <= cap
      modifies this`data
      ensures |data| <= cap && Wrote(old(data), data, cap, ok, SynProxyAttrs(c))
    {
      hide Wrote;
      match c.synproxy {
        case None => ok := PutNothing();
        case Some(s) => ok := DumpSynproxyNest(s);
      }
    }

    /** The record is filled from the connection's fields, field by field, under the connection's lock. */
    method FillRecord(ct: Session) returns (r: TcpState)
      requires ct.locked
      ensures r == ct.tcp
    {
      var t := ct.Read();
      var from, seen := [t.seen0, t.seen1], [NO_SEEN, NO_SEEN];
      for i := 0 to 2
        invariant |seen| == 2 && seen[..i] == from[..i]
      {
        var x := from[i];
        seen := seen[i := TcpSeen(x.tdEnd, x.tdMaxEnd, x.tdMaxWin, x.tdMaxAck, x.tdScale, x.flags)];
      }
      assert seen == seen[..2] == from;
      r := TcpState(seen[0], seen[1], t.state, t.lastDir, t.retrans, t.lastIndex, t.lastSeq, t.lastAck, t.lastEnd,
                    t.lastWin, t.lastWscale, t.lastFlags);
    }

    /** The scales, the flags and the tracker's record, which a destroy message does not have. */
    method PutTcpDetails(ct: Session, destroy: bool) returns (ok: bool)
      requires |data| <= cap && ct.locked
      modifies this`data
      ensures |data| <= cap && Wrote(old(data), data, cap, ok, if destroy then [] else TcpAttrs(ct.tcp, false)[1..])
    {
      hide Wrote;
      if destroy {
        ok := PutNothing();
      } else {
        var r := FillRecord(ct);
        ok := PutAttrs(TcpAttrs(r, false)[1..]);
      }
    }

    /**
      tcp_to_nlattr: what it writes it has read under the connection's lock, which is free again on every way out;
      a failure leaves the nest open.
     */
    method TcpToNlattr(ct: Session, destroy: bool) returns (ok: bool)
      requires |data| <= cap && !ct.locked
      modifies this`data, ct`locked
      ensures |data| <= cap && !ct.locked
      ensures Wrote(old(data), data, cap, ok, [Nest(CTA_PROTOINFO_TCP, TcpAttrs(ct.tcp, destroy))])
    {
      TcpAttrsSplit(ct.tcp, destroy);
      hide Wrote, TcpAttrs;
      ghost var kids := TcpAttrs(ct.tcp, destroy);
      ct.locked := true;
      var at;
      ok, at := NestStart(CTA_PROTOINFO_TCP, kids);
      if !ok {
        ct.locked := false;
        return;
      }
      ghost var open := data;
      var t := ct.Read();
      ok := NlaPut(CTA_PROTOINFO_TCP_STATE, [t.state]);
      ghost var mid, was := data, ok;
      if ok {
        ok := PutTcpDetails(ct, destroy);
      }
      ghost var more := if destroy then [] else TcpAttrs(t, false)[1..];
      Next(open, mid, data, cap, was, ok, [Leaf(CTA_PROTOINFO_TCP_STATE, [t.state])], more);
      ct.locked := false;
      if !ok {
        NestFailed(old(data), data, cap, CTA_PROTOINFO_TCP, kids);
        return;
      }
      NestEnd(at, old(data), CTA_PROTOINFO_TCP, ok, kids);
    }

    /** vgw_dump_tcp_protoinfo: the outer nest is closed even if the inner one failed. */
    method DumpTcpProtoinfo(ct: Session, destroy: bool) returns (ok: bool)
      requires |data| <= cap && !ct.locked
      modifies this`data, ct`locked
      ensures |data| <= cap && !ct.locked
      ensures Wrote(old(data), data, cap, ok,
                    [Nest(CTA_PROTOINFO, [Nest(CTA_PROTOINFO_TCP, TcpAttrs(ct.tcp, destroy))])])
    {
      hide Wrote;
      ghost var kids := [Nest(CTA_PROTOINFO_TCP, TcpAttrs(ct.tcp, destroy))];
      var at;
      ok, at := NestStart(CTA_PROTOINFO, kids);
      if !ok {
        return;
      }
      ok := TcpToNlattr(ct, destroy);
      NestEnd(at, old(data), CTA_PROTOINFO, ok, kids);
    }

    /** The nest of the layer-4 protocol. */
    method DumpHookNest(attrs: seq<Attr>) returns (ok: bool)
      requires |data| <= cap
      modifies this`data
      ensures |data| <= cap && Wrote(old(data), data, cap, ok, [Nest(CTA_PROTOINFO, attrs)])
    {
      hide Wrote;
      var at;
      ok, at := NestStart(CTA_PROTOINFO, attrs);
      if !ok {
        return;
      }
      ghost var open := data;
      ok := PutAttrs(attrs);
      NestEnd(at, old(data), CTA_PROTOINFO, ok, attrs);
    }

    /** ctnetlink_dump_protoinfo. */
    method DumpProtoinfo(c: Conn, ct: Session, destroy: bool, f: Flags) returns (ok: bool)
      requires |data| <= cap && !ct.locked && ct.tcp == c.tcp
      modifies this`data, ct`locked
      ensures |data| <= cap && !ct.locked && Wrote(old(data), data, cap, ok, ProtoInfoAttrs(c, destroy, f))
    {
      hide Wrote;
      if OwnTcp(c, f) {
        ok := DumpTcpProtoinfo(ct, destroy);
        return;
      }
      match c.hook {
        case None => ok := PutNothing();
        case Some(h) => ok := DumpHookNest(if destroy then h.destroy else h.normal);
      }
    }

    /** The timeout and the protocol information, which an offloaded connection does not have. */
    method DumpLive(c: Conn, ct: Session, f: Flags) returns (ok: bool)
      requires |data| <= cap && !ct.locked && ct.tcp == c.tcp
      modifies this`data, ct`locked
      ensures |data| <= cap && !ct.locked
      ensures Wrote(old(data), data, cap, ok,
                    if Status(c, IPS_OFFLOAD) then [] else TimeoutAttrs(c, false) + ProtoInfoAttrs(c, false, f))
    {
      hide Wrote;
      if Status(c, IPS_OFFLOAD) {
        ok := PutNothing();
        return;
      }
      ok := DumpTimeout(c, false);
      ghost var mid, was := data, ok;
      if ok {
        ok := DumpProtoinfo(c, ct, false, f);
      }
      Next(old(data), mid, data, cap, was, ok, TimeoutAttrs(c, false), ProtoInfoAttrs(c, false, f));
    }

    /** ctnetlink_dump_info. */
    method DumpInfo(c: Conn, ct: Session, f: Flags) returns (ok: bool)
      requires |data| <= cap && !ct.locked && ct.tcp == c.tcp
      modifies this`data, ct`locked
      ensures |data| <= cap && !ct.locked && Wrote(old(data), data, cap, ok, InfoAttrs(c, f))
    {
      hide Wrote;
      ok := DumpStatus(c);
      ghost var acc := StatusAttrs(c);
      ghost var mid, was := data, ok;
      if ok {
        ok := DumpMark(c, true);
      }
      Next(old(data), mid, data, cap, was, ok, acc, MarkAttrs(c, true));
      acc := acc + MarkAttrs(c, true);
      mid, was := data, ok;
      if ok {
        ok := DumpSecctx(c);
      }
      Next(old(data), mid, data, cap, was, ok, acc, SecctxAttrs(c));
      acc := acc + SecctxAttrs(c);
      mid, was := data, ok;
      if ok {
        ok := DumpId(c);
      }
      Next(old(data), mid, data, cap, was, ok, acc, IdAttrs(c));
      acc := acc + IdAttrs(c);
      mid, was := data, ok;
      if ok {
        ok := DumpUse(c);
      }
      Next(old(data), mid, data, cap, was, ok, acc, UseAttrs(c));
      acc := acc + UseAttrs(c);
      mid, was := data, ok;
      if ok {
        ok := DumpMaster(c);
      }
      Next(old(data), mid, data, cap, was, ok, acc, MasterAttrs(c));
      acc := acc + MasterAttrs(c);
      mid, was := data, ok;
      if ok {
        ok := DumpLive(c, ct, f);
      }
      Next(old(data), mid, data, cap, was, ok, acc,
           if Status(c, IPS_OFFLOAD) then [] else TimeoutAttrs(c, false) + ProtoInfoAttrs(c, false, f));
    }

    /** ctnetlink_dump_extinfo. */
    method DumpExtinfo(c: Conn) returns (ok: bool)
      requires |data| <= cap
      modifies this`data
      ensures |data| <= cap && Wrote(old(data), data, cap, ok, ExtAttrs(c))
    {
      hide Wrote;
      ok := DumpAcct(c);
      ghost var acc := AcctAttrs(c);
      ghost var mid, was := data, ok;
      if ok {
        ok := DumpTimestamp(c);
      }
      Next(old(data), mid, data, cap, was, ok, acc, TstampAttrs(c));
      acc := acc + TstampAttrs(c);
      mid, was := data, ok;
      if ok {
        ok := DumpHelpinfo(c);
      }
      Next(old(data), mid, data, cap, was, ok, acc, HelpAttrs(c));
      acc := acc + HelpAttrs(c);
      mid, was := data, ok;
      if ok {
        ok := DumpLabels(c);
      }
      Next(old(data), mid, data, cap, was, ok, acc, LabelAttrs(c));
      acc := acc + LabelAttrs(c);
      mid, was := data, ok;
      if ok {
        ok := DumpSeqAdj(c);
      }
      Next(old(data), mid, data, cap, was, ok, acc, SeqAdjAttrs(c));
      acc := acc + SeqAdjAttrs(c);
      mid, was := data, ok;
      if ok {
        ok := DumpSynproxy(c);
      }
      Next(old(data), mid, data, cap, was, ok, acc, SynProxyAttrs(c));
    }

    /** One direction: its tuple, and the zone if it belongs to that direction. */
    method DumpTupleNest(kind: nat, t: Tuple, z: Zone, dir: Byte) returns (ok: bool)
      requires |data| <= cap
      modifies this`data
      ensures |data| <= cap &&
              Wrote(old(data), data, cap, ok, [Nest(kind, TupleAttrs(t) + ZoneAttrs(CTA_TUPLE_ZONE, z, dir))])
    {
      hide Wrote;
      var at;
      ok, at := NestStart(kind, TupleAttrs(t) + ZoneAttrs(CTA_TUPLE_ZONE, z, dir));
      if !ok {
        return;
      }
      ghost var open := data;
      ok := DumpTuples(t);
      ghost var acc := TupleAttrs(t);
      ghost var mid, was := data, ok;
      if ok {
        ok := DumpZoneId(CTA_TUPLE_ZONE, z, dir);
      }
      Next(open, mid, data, cap, was, ok, acc, ZoneAttrs(CTA_TUPLE_ZONE, z, dir));
      if !ok {
        NestFailed(old(data), data, cap, kind, TupleAttrs(t) + ZoneAttrs(CTA_TUPLE_ZONE, z, dir));
        return;
      }
      NestEnd(at, old(data), kind, ok, TupleAttrs(t) + ZoneAttrs(CTA_TUPLE_ZONE, z, dir));
    }

    /** Both directions, and the zone if it belongs to both. */
    method DumpTuplesAndZone(c: Conn) returns (ok: bool)
      requires |data| <= cap
      modifies this`data
      ensures |data| <= cap && Wrote(old(data), data, cap, ok, TuplesAndZone(c))
    {
      hide Wrote;
      var z := c.info.zone;
      ghost var o := Nest(CTA_TUPLE_ORIG, TupleAttrs(c.info.orig) + ZoneAttrs(CTA_TUPLE_ZONE, z, NF_CT_ZONE_DIR_ORIG));
      ghost var r := Nest(CTA_TUPLE_REPLY,
                          TupleAttrs(c.info.reply) + ZoneAttrs(CTA_TUPLE_ZONE, z, NF_CT_ZONE_DIR_REPL));
      ok := DumpTupleNest(CTA_TUPLE_ORIG, c.info.orig, z, NF_CT_ZONE_DIR_ORIG);
      ghost var mid, was := data, ok;
      if ok {
        ok := DumpTupleNest(CTA_TUPLE_REPLY, c.info.reply, z, NF_CT_ZONE_DIR_REPL);
      }
      Next(old(data), mid, data, cap, was, ok, [o], [r]);
      assert [o] + [r] == [o, r];
      mid, was := data, ok;
      if ok {
        ok := DumpZoneId(CTA_ZONE, z, NF_CT_DEFAULT_ZONE_DIR);
      }
      Next(old(data), mid, data, cap, was, ok, [o, r], ZoneAttrs(CTA_ZONE, z, NF_CT_DEFAULT_ZONE_DIR));
    }

    method DumpExtIf(c: Conn, ext: bool) returns (ok: bool)
      requires |data| <= cap
      modifies this`data
      ensures |data| <= cap && Wrote(old(data), data, cap, ok, if ext then ExtAttrs(c) else [])
    {
      hide Wrote;
      if ext {
        ok := DumpExtinfo(c);
      } else {
        ok := PutNothing();
      }
    }

    /** Everything between the headers and the end of a dump message. */
    method DumpAll(c: Conn, ct: Session, ext: bool, f: Flags) returns (ok: bool)
      requires |data| <= cap && !ct.locked && ct.tcp == c.tcp
      modifies this`data, ct`locked
      ensures |data| <= cap && !ct.locked && Wrote(old(data), data, cap, ok, DumpAttrs(c, ext, f))
    {
      hide Wrote;
      ok := DumpTuplesAndZone(c);
      ghost var acc := TuplesAndZone(c);
      ghost var mid, was := data, ok;
      if ok {
        ok := DumpInfo(c, ct, f);
      }
      Next(old(data), mid, data, cap, was, ok, acc, InfoAttrs(c, f));
      acc := acc + InfoAttrs(c, f);
      mid, was := data, ok;
      if ok {
        ok := DumpExtIf(c, ext);
      }
      Next(old(data), mid, data, cap, was, ok, acc, if ext then ExtAttrs(c) else []);
    }

    /** A message with the given head: all of it, or nothing. */
    method FillMessage(h: Head, c: Conn, ct: Session, ext: bool, f: Flags) returns (ok: bool)
      requires |data| <= cap && !ct.locked && ct.tcp == c.tcp
      modifies this`data, ct`locked
      ensures |data| <= cap && !ct.locked
      ensures ok <==> |old(data)| + |Message(h, DumpAttrs(c, ext, f))| <= cap
      ensures data == if ok then old(data) + Message(h, DumpAttrs(c, ext, f)) else old(data)
    {
      ghost var attrs := DumpAttrs(c, ext, f);
      EncodeAllSize(attrs);
      hide EncodeAll, SizeAll, DumpAttrs, HeadBytes;
      var start := |data|;
      if start + NLMSG_HDRLEN + NFGENMSG_LEN > cap {
        return false;
      }
      data := data + HeadBytes(h, 0);
      ghost var open := data;
      ok := DumpAll(c, ct, ext, f);
      if ok {
        assert data == old(data) + HeadBytes(h, 0) + EncodeAll(attrs);
        var len := |data| - start;
        assert data[start + NLMSG_HDRLEN + NFGENMSG_LEN..] == EncodeAll(attrs);
        data := data[..start] + HeadBytes(h, len) + data[start + NLMSG_HDRLEN + NFGENMSG_LEN..];
        assert data == old(data) + Message(h, attrs);
      } else {
        assert data[..start] == open[..start];
        data := data[..start];
      }
    }

    /**
      ctnetlink_fill_info: all or nothing. Either one whole message is appended, in which every nest covers
      exactly its children, or the buffer is what it was; and it is appended exactly when it fits.
     */
    method FillInfo(portid: U32, seqno: U32, c: Conn, ct: Session, ext: bool, f: Flags) returns (ok: bool)
      requires |data| <= cap && !ct.locked && ct.tcp == c.tcp
      modifies this`data, ct`locked
      ensures |data| <= cap && !ct.locked
      ensures var m := Message(DumpHead(c, portid, seqno, f), DumpAttrs(c, ext, f));
              && (ok <==> |old(data)| + |m| <= cap)
              && data == if ok then old(data) + m else old(data)
    {
      var flags := if f.filtered then NLM_F_DUMP_FILTERED else 0;
      if portid != 0 {
        flags := flags + NLM_F_MULTI;
      }
      var h := Head(NFNL_MSG_CT_NEW, flags, seqno, portid, c.info.orig.l3num);
      assert h == DumpHead(c, portid, seqno, f);
      hide DumpHead, Message, DumpAttrs;
      ok := FillMessage(h, c, ct, ext, f);
    }
  }
}
