/**
  Values shared by every part of the model: connection identities, the two
  directions of a connection, address tuples, zones, and the attributes of a
  tracked connection that a dump, a filter or a message can look at.
 */
module Conntrack {

  datatype Option<+T> = None | Some(value: T)

  /** The address of a `struct nf_conn` (or of an expectation): its identity. */
  type ConnId = nat

  datatype Dir = Original | Reply

  type Byte = x: int | 0 <= x < 0x100
  type U16 = x: int | 0 <= x < 0x1_0000
  type U32 = x: int | 0 <= x < 0x1_0000_0000

  const NFPROTO_IPV4: Byte := 2
  const NFPROTO_IPV6: Byte := 10

  const IPPROTO_ICMP: Byte := 1
  const IPPROTO_TCP: Byte := 6
  const IPPROTO_UDP: Byte := 17
  const IPPROTO_ICMPV6: Byte := 58

  /** The member of `union nf_inet_addr` that was last written, if any. */
  datatype Addr = NoAddr | V4(bytes: seq<Byte>) | V6(bytes: seq<Byte>)

  /** The member of the layer-4 union on the source side that was last written. */
  datatype L4Src = NoL4Src | SrcPort(port: U16) | IcmpId(id: U16)

  /** The member of the layer-4 union on the destination side that was last written. */
  datatype L4Dst = NoL4Dst | DstPort(port: U16) | IcmpTypeCode(itype: Byte, code: Byte)

  datatype Tuple = Tuple(l3num: Byte, protonum: Byte, src: Addr, dst: Addr,
                         l4src: L4Src, l4dst: L4Dst, dir: Dir)

  /** What memset(tuple, 0) leaves behind. */
  const ZERO_TUPLE := Tuple(0, 0, NoAddr, NoAddr, NoL4Src, NoL4Dst, Original)

  /** `struct nf_conntrack_zone`; `dir` and `flags` are bit sets over the two directions. */
  datatype Zone = Zone(id: U16, flags: Byte, dir: Byte)

  const NF_CT_DEFAULT_ZONE_ID: U16 := 0
  const NF_CT_ZONE_DIR_ORIG: Byte := 1
  const NF_CT_ZONE_DIR_REPL: Byte := 2
  const NF_CT_DEFAULT_ZONE_DIR: Byte := 3

  const DEFAULT_ZONE := Zone(NF_CT_DEFAULT_ZONE_ID, 0, NF_CT_DEFAULT_ZONE_DIR)

  /** The attributes of a connection that filters read. */
  datatype Info = Info(orig: Tuple, reply: Tuple, zone: Zone, mark: U32, status: U32)

  /** Bitwise and of two words. */
  function And32(a: U32, b: U32): (r: U32)
    ensures r <= a && r <= b
    decreases a
  {
    if a == 0 || b == 0 then 0 else (if a % 2 == 1 && b % 2 == 1 then 1 else 0) + 2 * And32(a / 2, b / 2)
  }

  lemma And32Zero(a: U32)
    ensures And32(a, 0) == 0
  {
  }

  /** Bit `k` of a word, counted from the lowest. */
  predicate Bit(n: nat, k: nat) {
    if k == 0 then n % 2 == 1 else Bit(n / 2, k - 1)
  }

  lemma And32Halves(a: U32, b: U32)
    ensures And32(a, b) % 2 == 1 <==> a % 2 == 1 && b % 2 == 1
    ensures And32(a, b) / 2 == And32(a / 2, b / 2)
  {
    var half := And32(a / 2, b / 2);
    if a == 0 || b == 0 {
      assert half == 0;
    } else {
      assert And32(a, b) == (if a % 2 == 1 && b % 2 == 1 then 1 else 0) + 2 * half;
    }
    hide And32;
  }

  /** The bits of the conjunction are the bits that both words have. */
  lemma {:induction false} And32Bits(a: U32, b: U32, k: nat)
    ensures Bit(And32(a, b), k) <==> Bit(a, k) && Bit(b, k)
    decreases k
  {
    hide And32;
    And32Halves(a, b);
    if k > 0 {
      And32Bits(a / 2, b / 2, k - 1);
    }
  }

  /** A word is determined by its bits. */
  lemma {:induction false} BitsDetermine(a: nat, b: nat)
    requires forall k: nat :: Bit(a, k) <==> Bit(b, k)
    ensures a == b
    decreases a + b
  {
    if a + b > 0 {
      assert Bit(a, 0) <==> Bit(b, 0);
      forall k: nat
        ensures Bit(a / 2, k) <==> Bit(b / 2, k)
      {
        assert Bit(a, k + 1) <==> Bit(b, k + 1);
      }
      BitsDetermine(a / 2, b / 2);
    }
  }

  /** A word of ones only. */
  predicate Ones(n: nat) {
    n == 0 || (n % 2 == 1 && Ones(n / 2))
  }

  lemma {:induction false} And32Ones(a: U32, n: U32)
    requires Ones(n) && a <= n
    ensures And32(a, n) == a
    decreases a
  {
    if a > 0 {
      And32Ones(a / 2, n / 2);
    }
  }

  /** Whether a word has the bit of weight `bit`, a power of two. */
  predicate HasBit(n: U32, bit: U32)
    requires bit > 0
  {
    n / bit % 2 == 1
  }

  /** Status bits. */
  const IPS_EXPECTED: U32 := 0x0001
  const IPS_SEQ_ADJUST: U32 := 0x0040
  const IPS_OFFLOAD: U32 := 0x4000
}
