/**
  The TCP tracker: what one packet does to the tracked fields of a connection,
  from the bytes of its headers on.
 */
module Tracker {
  import opened Conntrack
  import opened Netlink
  import opened CtMessage

  const FLAGS_TCP_TRACK: U32 := 0x01
  const FLAGS_ZONE_FILTER: U32 := 0x02

  const TCP_CONNTRACK_SYN_RECV: Byte := 2
  const TCP_CONNTRACK_ESTABLISHED: Byte := 3
  const TCP_CONNTRACK_CLOSE_WAIT: Byte := 5
  const TCP_CONNTRACK_CLOSE: Byte := 8

  const IP_CT_ESTABLISHED: Byte := 0
  const IP_CT_UNTRACKED: Byte := 7

  const OVS_CS_F_ESTABLISHED: U32 := 0x02
  const OVS_CS_F_INVALID: U32 := 0x10

  const IPHDR_LEN := 20
  const TCPHDR_LEN := 20

  /** The module's parameters. */
  datatype Config = Config(flags: U32, zoneMin: U32, zoneMax: U32)

  /** A packet: its bytes, where its network header starts, and the state conntrack left in it. */
  datatype Packet = Packet(bytes: seq<Byte>, nhoff: nat, ctinfo: Byte)

  /** What the tracker reads from a packet: the fields of its TCP header, and the length of its payload. */
  datatype Segment = Segment(seqno: U32, ackno: U32, syn: bool, ack: bool, fin: bool, rst: bool, payload: nat)

  predicate ZoneTracked(cfg: Config, zone: U16) {
    !HasBit(cfg.flags, FLAGS_ZONE_FILTER) || cfg.zoneMin <= zone <= cfg.zoneMax
  }

  /** Whether skb_header_pointer finds `n` bytes at `off`. */
  predicate Has(p: Packet, off: nat, n: nat) {
    off + n <= |p.bytes|
  }

  /** ipv4_get_l4proto: the offset of the transport header, or -1. */
  function L4Offset(p: Packet): (off: int)
    ensures off == -1 || p.nhoff <= off <= |p.bytes|
  {
    if !Has(p, p.nhoff, IPHDR_LEN) then -1
    else if GetBe16(p.bytes[p.nhoff + 6..]) % 0x2000 != 0 then -1
    else
      var off := p.nhoff + p.bytes[p.nhoff] % 16 * 4;
      if off > |p.bytes| then -1 else off
  }

  /** tcp_error: the header is shorter than a TCP header, or longer than what is left of the packet. */
  predicate TcpError(p: Packet, off: nat)
    requires Has(p, off, TCPHDR_LEN)
  {
    var doff := p.bytes[off + 12] / 16 * 4;
    doff < TCPHDR_LEN || |p.bytes| - off < doff
  }

  function SegmentAt(p: Packet, off: nat): Segment
    requires Has(p, off, TCPHDR_LEN) && !TcpError(p, off)
  {
    var f := p.bytes[off + 13];
    Segment(GetBe32(p.bytes[off + 4..]), GetBe32(p.bytes[off + 8..]), HasBit(f, 2), HasBit(f, 16), HasBit(f, 1),
            HasBit(f, 4), |p.bytes| - off - p.bytes[off + 12] / 16 * 4)
  }

  /** The outcome of the checks in front of the tracker: a segment, or the code of the check that failed. */
  datatype Gate = Pass(seg: Segment) | Stop(code: int)

  function Checks(cfg: Config, zone: U16, p: Packet): Gate {
    if !HasBit(cfg.flags, FLAGS_TCP_TRACK) then Stop(-1)
    else if !ZoneTracked(cfg, zone) then Stop(-2)
    else if !Has(p, p.nhoff, IPHDR_LEN) then Stop(-3)
    else if L4Offset(p) <= 0 then Stop(-4)
    else if p.bytes[p.nhoff + 9] != IPPROTO_TCP then Stop(-5)
    else if !Has(p, L4Offset(p), TCPHDR_LEN) then Stop(-6)
    else if TcpError(p, L4Offset(p)) then Stop(-7)
    else Pass(SegmentAt(p, L4Offset(p)))
  }

  // ---------------------------------------------------------------- packets that are tracked

  function FlagByte(s: Segment): Byte {
    (if s.fin then 1 else 0) + (if s.syn then 2 else 0) + (if s.rst then 4 else 0) + (if s.ack then 16 else 0)
  }

  /** A TCP header for a segment: ports, numbers, length and flags, then the window, the checksum and any options. */
  function TcpHeader(s: Segment, ports: seq<Byte>, rest: seq<Byte>): seq<Byte>
    requires 6 <= |rest| <= 46
  {
    ports + Be32(s.seqno) + Be32(s.ackno) + [(14 + |rest|) / 4 * 16, FlagByte(s)] + rest
  }

  /** An IPv4 header of a TCP packet that is not a later fragment: its length field is its length. */
  predicate IpHeader(ip: seq<Byte>) {
    |ip| >= IPHDR_LEN && ip[0] % 16 * 4 == |ip| && GetBe16(ip[6..]) % 0x2000 == 0 && ip[9] == IPPROTO_TCP
  }

  lemma FlagBits(s: Segment)
    ensures var f := FlagByte(s);
            && (HasBit(f, 1) <==> s.fin) && (HasBit(f, 2) <==> s.syn)
            && (HasBit(f, 4) <==> s.rst) && (HasBit(f, 16) <==> s.ack)
  {
  }

  lemma TcpHeaderReads(s: Segment, ports: seq<Byte>, rest: seq<Byte>, tail: seq<Byte>)
    requires |ports| == 4 && 6 <= |rest| <= 46 && |rest| % 4 == 2
    ensures var b := TcpHeader(s, ports, rest) + tail;
            && |b| == 14 + |rest| + |tail| && GetBe32(b[4..]) == s.seqno && GetBe32(b[8..]) == s.ackno
            && b[12] / 16 * 4 == 14 + |rest| && b[13] == FlagByte(s)
  {
    var b := TcpHeader(s, ports, rest) + tail;
    var end := [(14 + |rest|) / 4 * 16, FlagByte(s)] + rest + tail;
    Be32Reads(s.seqno, Be32(s.ackno) + end);
    Be32Reads(s.ackno, end);
    hide Be32, GetBe32, FlagByte;
    assert b[4..] == Be32(s.seqno) + (Be32(s.ackno) + end);
    assert b[8..] == Be32(s.ackno) + end;
    assert b[12] == end[0] && b[13] == end[1];
  }

  /**
    What the checks are for: a packet made of a link header, an IPv4 header, a TCP header with any options, and
    a payload passes them all, and is read as the segment it carries.
   */
  lemma BuiltPacketPasses(cfg: Config, zone: U16, link: seq<Byte>, ip: seq<Byte>, s: Segment, ports: seq<Byte>,
                          rest: seq<Byte>, payload: seq<Byte>, ctinfo: Byte)
    requires HasBit(cfg.flags, FLAGS_TCP_TRACK) && ZoneTracked(cfg, zone)
    requires IpHeader(ip) && |ports| == 4 && 6 <= |rest| <= 46 && |rest| % 4 == 2 && |payload| == s.payload
    ensures var p := Packet(link + ip + (TcpHeader(s, ports, rest) + payload), |link|, ctinfo);
            Checks(cfg, zone, p) == Pass(s)
  {
    var tcp := TcpHeader(s, ports, rest) + payload;
    var p := Packet(link + ip + tcp, |link|, ctinfo);
    var off := |link| + |ip|;
    TcpHeaderReads(s, ports, rest, payload);
    FlagBits(s);
    hide GetBe32, FlagByte, TcpHeader, HasBit, ZoneTracked;
    assert p.bytes[off..] == tcp;
    assert p.bytes[off + 4..] == tcp[4..] && p.bytes[off + 8..] == tcp[8..];
    assert p.bytes[off + 12] == tcp[12] && p.bytes[off + 13] == tcp[13];
    assert p.bytes[|link|] == ip[0] && p.bytes[|link| + 9] == ip[9];
    assert p.bytes[|link| + 6] == ip[6] && p.bytes[|link| + 7] == ip[7];
    assert GetBe16(p.bytes[|link| + 6..]) == GetBe16(ip[6..]);
    assert L4Offset(p) == off;
  }

  // ---------------------------------------------------------------- what a packet does

  /** SEG.LEN of section 3.4 of RFC 9293: the octets a segment occupies in the sequence space. */
  function SegLen(s: Segment): nat {
    s.payload + (if s.syn then 1 else 0) + (if s.fin then 1 else 0)
  }

  /** segment_seq_plus_len as it is computed: size_t arithmetic that may wrap, cut to 32 bits. */
  function SeqPlusLen(seqno: U32, len: nat, dataoff: nat, doff: nat, syn: bool, fin: bool): U32 {
    var sum := seqno + len - dataoff - doff * 4 + (if syn then 1 else 0) + (if fin then 1 else 0);
    sum % 0x1_0000_0000_0000_0000 % 0x1_0000_0000
  }

  /** The sequence number after a segment. */
  function SegEnd(s: Segment): U32 {
    (s.seqno + SegLen(s)) % 0x1_0000_0000
  }

  /** The state a segment leads to; at most one of the four changes happens. */
  function NextState(state: Byte, s: Segment): Byte {
    if s.syn && state != TCP_CONNTRACK_ESTABLISHED then TCP_CONNTRACK_SYN_RECV
    else if s.ack && state < TCP_CONNTRACK_ESTABLISHED then TCP_CONNTRACK_ESTABLISHED
    else if s.fin then TCP_CONNTRACK_CLOSE_WAIT
    else if s.rst then TCP_CONNTRACK_CLOSE
    else state
  }

  /** The segment repeats the stored numbers, and is not stored. */
  predicate Repeats(t: TcpState, s: Segment) {
    s.seqno == t.lastSeq && s.ackno == t.lastAck
  }

  /** The whole effect of one tracked segment on a connection. */
  function Absorb(t: TcpState, s: Segment): TcpState {
    var t1 := t.(state := NextState(t.state, s));
    if Repeats(t, s) then t1
    else t1.(lastSeq := s.seqno, lastEnd := SegEnd(s), lastAck := if s.ackno != 0 then s.ackno else t.lastAck)
  }

  function SetEstablished(n: Byte): Byte {
    if HasBit(n, OVS_CS_F_ESTABLISHED) then n else n + OVS_CS_F_ESTABLISHED
  }

  function ClearInvalid(n: Byte): Byte {
    if HasBit(n, OVS_CS_F_INVALID) then n - OVS_CS_F_INVALID else n
  }

  /** The flow key's conntrack state: an established packet is not invalid. */
  function AdjustKey(ctState: Byte, ctinfo: Byte): (r: Byte)
    ensures ctinfo == IP_CT_ESTABLISHED ==> HasBit(r, OVS_CS_F_ESTABLISHED) && !HasBit(r, OVS_CS_F_INVALID)
  {
    if ctinfo == IP_CT_ESTABLISHED then SetEstablished(ClearInvalid(ctState)) else ctState
  }

  // ---------------------------------------------------------------- the code

  /** The fields of `struct nf_conn` that the tracker touches. */
  class Session {
    var tcp: TcpState
    var use: nat
    var locked: bool
    /** The state whose timeout was last applied. */
    var timeoutOf: Byte

    constructor (tcp: TcpState)
      ensures this.tcp == tcp && use == 1 && !locked && timeoutOf == tcp.state
    {
      this.tcp, use, locked, timeoutOf := tcp, 1, false, tcp.state;
    }

    method SetState(state: Byte)
      modifies this
      ensures tcp == old(tcp).(state := state) && use == old(use) && locked == old(locked)
      ensures timeoutOf == if old(tcp.state) == state then old(timeoutOf) else state
    {
      if tcp.state == state {
        return;
      }
      tcp := tcp.(state := state);
      timeoutOf := state;
    }

    /** A read of the tracked fields, which needs the lock. */
    method Read() returns (t: TcpState)
      requires locked
      ensures t == tcp
    {
      t := tcp;
    }

    /** The state change of a segment. */
    method Move(th: Segment)
      modifies this
      ensures tcp == old(tcp).(state := NextState(old(tcp.state), th)) && use == old(use) && locked == old(locked)
      ensures timeoutOf == if tcp.state != old(tcp.state) then tcp.state else old(timeoutOf)
    {
      if th.syn && tcp.state != TCP_CONNTRACK_ESTABLISHED {
        SetState(TCP_CONNTRACK_SYN_RECV);
      } else if th.ack && tcp.state < TCP_CONNTRACK_ESTABLISHED {
        SetState(TCP_CONNTRACK_ESTABLISHED);
      } else if th.fin {
        SetState(TCP_CONNTRACK_CLOSE_WAIT);
      } else if th.rst {
        SetState(TCP_CONNTRACK_CLOSE);
      }
    }
  }

  class FlowKey {
    var ctState: Byte
    const recircId: U32

    constructor (ctState: Byte, recircId: U32)
      ensures this.ctState == ctState && this.recircId == recircId
    {
      this.ctState, this.recircId := ctState, recircId;
    }

    method Adjust(ctinfo: Byte)
      modifies this`ctState
      ensures ctState == AdjustKey(old(ctState), ctinfo)
    {
      if ctinfo == IP_CT_ESTABLISHED {
        if HasBit(ctState, OVS_CS_F_INVALID) {
          ctState := ClearInvalid(ctState);
        }
        if !HasBit(ctState, OVS_CS_F_ESTABLISHED) {
          ctState := SetEstablished(ctState);
        }
      }
    }
  }

  /**
    vgw_tcptrack_main. `attached` is the connection the packet carries, `found` what a lookup in the table returns,
    with a reference; it is used if there is no attached one or that is the untracked one. The result is the code
    the function computes.
   */
  method Track(cfg: Config, zone: U16, p: Packet, key: FlowKey, attached: Session?, found: Session?) returns (ret: int)
    requires |p.bytes| < 0x1_0000_0000
    requires attached != null ==> !attached.locked
    requires found != null ==> !found.locked
    modifies key`ctState, attached, found
    ensures var g := Checks(cfg, zone, p);
            var ct := if attached != null && p.ctinfo != IP_CT_UNTRACKED then attached else found;
            if g.Stop? || ct == null then
              && ret == (if g.Stop? then g.code else -8)
              && key.ctState == old(key.ctState)
              && (attached != null ==>
                    attached.tcp == old(attached.tcp) && attached.timeoutOf == old(attached.timeoutOf))
              && (found != null ==> found.tcp == old(found.tcp) && found.timeoutOf == old(found.timeoutOf))
            else
              && ret == (if Repeats(old(ct.tcp), g.seg) then -10 else 0)
              && key.ctState == AdjustKey(old(key.ctState), p.ctinfo)
              && ct.tcp == Absorb(old(ct.tcp), g.seg)
              && ct.timeoutOf == (if ct.tcp.state != old(ct.tcp.state) then ct.tcp.state else old(ct.timeoutOf))
    ensures var ct := if attached != null && p.ctinfo != IP_CT_UNTRACKED then attached else found;
            && (attached != null && attached != ct ==> attached.tcp == old(attached.tcp))
            && (found != null && found != ct ==> found.tcp == old(found.tcp))
    ensures attached != null ==> !attached.locked && attached.use == old(attached.use)
    ensures found != null ==> !found.locked && found.use == old(found.use)
  {
    if !HasBit(cfg.flags, FLAGS_TCP_TRACK) {
      return -1;
    }
    if !ZoneTracked(cfg, zone) {
      return -2;
    }
    if !Has(p, p.nhoff, IPHDR_LEN) {
      return -3;
    }
    var dataoff := L4Offset(p);
    if dataoff <= 0 {
      return -4;
    }
    if p.bytes[p.nhoff + 9] != IPPROTO_TCP {
      return -5;
    }
    if !Has(p, dataoff, TCPHDR_LEN) {
      return -6;
    }
    if TcpError(p, dataoff) {
      return -7;
    }
    var th := SegmentAt(p, dataoff);
    var doff := p.bytes[dataoff + 12] / 16;
    var ct: Session? := attached;
    var looked: Session? := null;
    if attached == null || p.ctinfo == IP_CT_UNTRACKED {
      looked := found;
      if looked == null {
        return -8;
      }
      looked.use := looked.use + 1;
      ct := looked;
    }
    ret := TrackOn(ct, th, p, dataoff, doff, key);
    if looked != null {
      looked.use := looked.use - 1;
    }
  }

  /** The part of vgw_tcptrack_main that works on a connection. */
  method TrackOn(ct: Session, th: Segment, p: Packet, dataoff: nat, doff: nat, key: FlowKey) returns (ret: int)
    requires !ct.locked && |p.bytes| < 0x1_0000_0000
    requires th.payload == |p.bytes| - dataoff - doff * 4
    modifies ct, key`ctState
    ensures ct.tcp == Absorb(old(ct.tcp), th) && ct.use == old(ct.use) && !ct.locked
    ensures ct.timeoutOf == if ct.tcp.state != old(ct.tcp.state) then ct.tcp.state else old(ct.timeoutOf)
    ensures ret == if Repeats(old(ct.tcp), th) then -10 else 0
    ensures key.ctState == AdjustKey(old(key.ctState), p.ctinfo)
  {
    ct.Move(th);
    key.Adjust(p.ctinfo);
    if th.seqno == ct.tcp.lastSeq && th.ackno == ct.tcp.lastAck {
      return -10;
    }
    ct.locked := true;
    ct.tcp := ct.tcp.(lastSeq := th.seqno);
    EndIsReal(th, |p.bytes|, dataoff, doff);
    hide SeqPlusLen, SegEnd, AdjustKey, NextState;
    ct.tcp := ct.tcp.(lastEnd := SeqPlusLen(th.seqno, |p.bytes|, dataoff, doff, th.syn, th.fin));
    if th.ackno != 0 {
      ct.tcp := ct.tcp.(lastAck := th.ackno);
    }
    ct.locked := false;
    return 0;
  }

  /** Past the checks, the subtraction does not go below zero, so the wrapping sum is the end of the segment. */
  lemma EndIsReal(s: Segment, len: nat, dataoff: nat, doff: nat)
    requires s.payload == len - dataoff - doff * 4
    requires len < 0x1_0000_0000
    ensures SeqPlusLen(s.seqno, len, dataoff, doff, s.syn, s.fin) == SegEnd(s)
  {
  }

  /** The probe on ovs_ct_execute: only successful calls outside recirculation are tracked. */
  method OnReturn(retval: int, cfg: Config, zone: U16, p: Packet, key: FlowKey, attached: Session?, found: Session?)
    requires |p.bytes| < 0x1_0000_0000
    requires attached != null ==> !attached.locked
    requires found != null ==> !found.locked
    modifies key`ctState, attached, found
    ensures var ct := if attached != null && p.ctinfo != IP_CT_UNTRACKED then attached else found;
            && (ct != null ==> ct.tcp == Step(old(ct.tcp), Arrival(retval, key.recircId, cfg, zone, p)))
            && key.ctState == if ct != null && Tracked(Arrival(retval, key.recircId, cfg, zone, p)).Some?
                              then AdjustKey(old(key.ctState), p.ctinfo) else old(key.ctState)
    ensures attached != null ==> !attached.locked && attached.use == old(attached.use)
    ensures found != null ==> !found.locked && found.use == old(found.use)
  {
    if retval != 0 {
      return;
    } else if key.recircId != 0 {
      return;
    }
    var _ := Track(cfg, zone, p, key, attached, found);
  }

  /** One return of ovs_ct_execute for a packet of the connection. */
  datatype Arrival = Arrival(retval: int, recircId: U32, cfg: Config, zone: U16, p: Packet)

  /** The tracked segment of an arrival, if all checks let it through. */
  function Tracked(a: Arrival): Option<Segment> {
    if a.retval != 0 || a.recircId != 0 then None
    else match Checks(a.cfg, a.zone, a.p)
      case Stop(_) => None
      case Pass(s) => Some(s)
  }

  function Step(t: TcpState, a: Arrival): TcpState {
    match Tracked(a) case None => t case Some(s) => Absorb(t, s)
  }

  /** A tracked segment's length is below 2^32, so it can be told from the difference of two sequence numbers. */
  lemma TrackedLength(a: Arrival)
    requires Tracked(a).Some? && |a.p.bytes| < 0x1_0000_0000
    ensures SegLen(Tracked(a).value) < 0x1_0000_0000
    ensures var s := Tracked(a).value; (SegEnd(s) - s.seqno) % 0x1_0000_0000 == SegLen(s)
  {
    var s := Tracked(a).value;
    ModularLength(s.seqno, SegLen(s));
  }

  lemma ModularLength(a: U32, n: nat)
    requires n < 0x1_0000_0000
    ensures ((a + n) % 0x1_0000_0000 - a) % 0x1_0000_0000 == n
  {
  }
}
