/**
  Netlink attributes (RFC 3549): what a tree of attributes looks like as bytes,
  and how the kernel reads a run of attributes back.
 */
module Netlink {
  import opened Conntrack

  const NLA_HDRLEN := 4
  const NLA_F_NESTED := 0x8000

  function Align4(n: nat): nat {
    (n + 3) / 4 * 4
  }

  /** nla_total_size: the bytes an attribute with `n` bytes of payload takes. */
  function TotalSize(n: nat): nat {
    Align4(NLA_HDRLEN + n)
  }

  function Zeros(n: nat): (z: seq<Byte>)
    ensures |z| == n
  {
    if n == 0 then [] else [0] + Zeros(n - 1)
  }

  /** A 16-bit number in host order (the module runs on x86), truncated to its field. */
  function Le16(n: nat): (b: seq<Byte>)
    ensures |b| == 2
  {
    [n % 256, n / 256 % 256]
  }

  function Be16(n: U16): (b: seq<Byte>)
    ensures |b| == 2
  {
    [n / 256, n % 256]
  }

  function Be32(n: U32): (b: seq<Byte>)
    ensures |b| == 4
  {
    Be16(n / 0x1_0000) + Be16(n % 0x1_0000)
  }

  /** Numbers read back: what Le16, Be16, and the 32-bit forms of both write. */
  function GetLe16(b: seq<Byte>): nat
    requires |b| >= 2
  {
    b[0] as int + 256 * b[1] as int
  }

  function GetBe16(b: seq<Byte>): U16
    requires |b| >= 2
  {
    256 * b[0] as int + b[1] as int
  }

  function GetBe32(b: seq<Byte>): U32
    requires |b| >= 4
  {
    GetBe16(b) as int * 0x1_0000 + GetBe16(b[2..]) as int
  }

  function GetLe32(b: seq<Byte>): U32
    requires |b| >= 4
  {
    GetLe16(b) + 0x1_0000 * GetLe16(b[2..])
  }

  lemma Be32Reads(n: U32, rest: seq<Byte>)
    ensures GetBe32(Be32(n) + rest) == n
  {
  }

  /** What the byte orders mean: a number is the sum of its bytes by weight. */
  lemma ByteOrders(n: U16, m: U32)
    ensures Le16(n)[0] as int + 256 * Le16(n)[1] as int == n && 256 * Be16(n)[0] as int + Be16(n)[1] as int == n
    ensures var b := Be32(m);
            0x100_0000 * b[0] as int + 0x1_0000 * b[1] as int + 0x100 * b[2] as int + b[3] as int == m
  {
  }

  /** An attribute: a payload, or a nest of attributes. */
  datatype Attr = Leaf(kind: nat, data: seq<Byte>) | Nest(kind: nat, kids: seq<Attr>)

  function Header(len: nat, kind: nat): (b: seq<Byte>)
    ensures |b| == NLA_HDRLEN
  {
    Le16(len) + Le16(kind)
  }

  /** The bytes of an attribute; a nest declares the length of exactly its children. */
  function Encode(a: Attr): seq<Byte> {
    match a
    case Leaf(kind, data) =>
      Header(NLA_HDRLEN + |data|, kind) + data + Zeros(TotalSize(|data|) - NLA_HDRLEN - |data|)
    case Nest(kind, kids) =>
      var body := EncodeAll(kids);
      Header(NLA_HDRLEN + |body|, kind + NLA_F_NESTED) + body
  }

  function EncodeAll(attrs: seq<Attr>): seq<Byte> {
    if attrs == [] then [] else Encode(attrs[0]) + EncodeAll(attrs[1..])
  }

  /** The bytes an attribute takes, without writing it. */
  function Size(a: Attr): nat {
    match a
    case Leaf(_, data) => TotalSize(|data|)
    case Nest(_, kids) => NLA_HDRLEN + SizeAll(kids)
  }

  function SizeAll(attrs: seq<Attr>): nat {
    if attrs == [] then 0 else Size(attrs[0]) + SizeAll(attrs[1..])
  }

  lemma {:induction false} EncodeSize(a: Attr)
    ensures |Encode(a)| == Size(a)
  {
    if a.Nest? {
      EncodeAllSize(a.kids);
    }
  }

  lemma {:induction false} EncodeAllSize(attrs: seq<Attr>)
    ensures |EncodeAll(attrs)| == SizeAll(attrs)
  {
    if attrs != [] {
      EncodeSize(attrs[0]);
      EncodeAllSize(attrs[1..]);
    }
  }

  lemma {:induction false} SizeAligned(a: Attr)
    ensures Size(a) % 4 == 0
  {
    if a.Nest? {
      SizeAllAligned(a.kids);
    }
  }

  lemma {:induction false} SizeAllAligned(attrs: seq<Attr>)
    ensures SizeAll(attrs) % 4 == 0
  {
    if attrs != [] {
      SizeAligned(attrs[0]);
      SizeAllAligned(attrs[1..]);
    }
  }

  lemma {:induction false} EncodeConcat(a: seq<Attr>, b: seq<Attr>)
    ensures EncodeAll(a + b) == EncodeAll(a) + EncodeAll(b)
    ensures SizeAll(a + b) == SizeAll(a) + SizeAll(b)
    decreases |a|
  {
    if a == [] {
      assert a + b == b;
    } else {
      assert (a + b)[1..] == a[1..] + b;
      EncodeConcat(a[1..], b);
    }
  }

  lemma EncodeOne(a: Attr)
    ensures EncodeAll([a]) == Encode(a) && SizeAll([a]) == Size(a)
  {
    assert [a][1..] == [];
    assert Encode(a) + [] == Encode(a);
  }

  lemma SizeTwo(a: Attr, b: Attr)
    ensures SizeAll([a, b]) == Size(a) + Size(b)
  {
    assert [a, b] == [a] + [b];
    EncodeConcat([a], [b]);
    EncodeOne(a);
    EncodeOne(b);
  }

  lemma SizeThree(a: Attr, b: Attr, c: Attr)
    ensures SizeAll([a, b, c]) == Size(a) + Size(b) + Size(c)
  {
    assert [a, b, c] == [a, b] + [c];
    EncodeConcat([a, b], [c]);
    SizeTwo(a, b);
    EncodeOne(c);
  }

  // ---------------------------------------------------------------- reading attributes

  /** What an attribute carries between its header and its padding. */
  function Payload(a: Attr): seq<Byte> {
    match a case Leaf(_, data) => data case Nest(_, kids) => EncodeAll(kids)
  }

  /** The kind and the length fit their fields. */
  predicate Sized(a: Attr) {
    0 < a.kind < 0x4000 && NLA_HDRLEN + |Payload(a)| < 0x1_0000
  }

  type Table = map<nat, seq<Byte>>

  /**
    nla_parse: the last attribute of each kind up to `maxKind`; unknown kinds are skipped, and reading
    stops at the first header that is too short or points past the end.
   */
  function Parse(b: seq<Byte>, maxKind: nat): Table
    decreases |b|
  {
    if |b| < NLA_HDRLEN then map[]
    else
      var len := GetLe16(b);
      if len < NLA_HDRLEN || len > |b| then map[]
      else
        var kind := GetLe16(b[2..]) % 0x4000;
        var rest := if Align4(len) >= |b| then [] else b[Align4(len)..];
        if 0 < kind <= maxKind then map[kind := b[NLA_HDRLEN..len]] + Parse(rest, maxKind)
        else Parse(rest, maxKind)
  }

  /** The table of the last attribute of each kind, from the attributes themselves. */
  function TableOf(attrs: seq<Attr>, maxKind: nat): Table {
    if attrs == [] then map[]
    else if 0 < attrs[0].kind <= maxKind then map[attrs[0].kind := Payload(attrs[0])] + TableOf(attrs[1..], maxKind)
    else TableOf(attrs[1..], maxKind)
  }

  lemma HeaderReads(len: nat, kind: nat, rest: seq<Byte>)
    requires len < 0x1_0000 && kind < 0x1_0000
    ensures var b := Header(len, kind) + rest; GetLe16(b) == len && GetLe16(b[2..]) == kind
  {
  }

  function WireKind(a: Attr): nat {
    if a.Nest? then a.kind + NLA_F_NESTED else a.kind
  }

  /** Header, payload, padding. */
  lemma EncodeParts(a: Attr)
    ensures Align4(NLA_HDRLEN + |Payload(a)|) == Size(a)
    ensures Encode(a) == Header(NLA_HDRLEN + |Payload(a)|, WireKind(a)) + Payload(a)
                         + Zeros(Size(a) - NLA_HDRLEN - |Payload(a)|)
  {
    match a
    case Leaf(kind, data) =>
    case Nest(kind, kids) =>
      EncodeAllSize(kids);
      SizeAllAligned(kids);
      AlignedStays(SizeAll(kids));
      var b := Header(NLA_HDRLEN + |EncodeAll(kids)|, kind + NLA_F_NESTED) + EncodeAll(kids);
      assert b + Zeros(0) == b;
  }

  lemma AlignedStays(n: nat)
    requires n % 4 == 0
    ensures Align4(NLA_HDRLEN + n) == NLA_HDRLEN + n
  {
  }

  lemma ParseStep(len: nat, kind: nat, data: seq<Byte>, pad: seq<Byte>, tail: seq<Byte>, maxKind: nat)
    requires len == NLA_HDRLEN + |data| < 0x1_0000 && 0 < kind % 0x4000 && kind < 0x1_0000
    requires len + |pad| == Align4(len)
    ensures Parse(Header(len, kind) + data + pad + tail, maxKind)
         == if kind % 0x4000 <= maxKind then map[kind % 0x4000 := data] + Parse(tail, maxKind) else Parse(tail, maxKind)
  {
    var b := Header(len, kind) + data + pad + tail;
    assert b == Header(len, kind) + (data + pad + tail);
    HeaderReads(len, kind, data + pad + tail);
    assert b[NLA_HDRLEN..len] == data;
    if Align4(len) >= |b| {
      assert tail == [];
    } else {
      assert b[Align4(len)..] == tail;
    }
  }

  /** The first attribute of a run is read as it was written. */
  lemma ParseFirst(a: Attr, tail: seq<Byte>, maxKind: nat)
    requires Sized(a)
    ensures Parse(Encode(a) + tail, maxKind)
         == if a.kind <= maxKind then map[a.kind := Payload(a)] + Parse(tail, maxKind) else Parse(tail, maxKind)
  {
    EncodeParts(a);
    var len := NLA_HDRLEN + |Payload(a)|;
    hide Encode, Parse, Header, Zeros, Payload;
    ParseStep(len, WireKind(a), Payload(a), Zeros(Size(a) - len), tail, maxKind);
  }

  /** Reading back what was written gives the table of what was written. */
  lemma {:induction false} ParseEncoded(attrs: seq<Attr>, maxKind: nat)
    requires forall a :: a in attrs ==> Sized(a)
    ensures Parse(EncodeAll(attrs), maxKind) == TableOf(attrs, maxKind)
    decreases |attrs|
  {
    if attrs != [] {
      ParseFirst(attrs[0], EncodeAll(attrs[1..]), maxKind);
      ParseEncoded(attrs[1..], maxKind);
    }
  }

  lemma {:induction false} TableConcat(a: seq<Attr>, b: seq<Attr>, maxKind: nat)
    ensures TableOf(a + b, maxKind) == TableOf(a, maxKind) + TableOf(b, maxKind)
    decreases |a|
  {
    if a == [] {
      assert a + b == b;
    } else {
      assert (a + b)[1..] == a[1..] + b;
      TableConcat(a[1..], b, maxKind);
    }
  }

  /** Only kinds that occur are in the table. */
  lemma {:induction false} TableKinds(attrs: seq<Attr>, maxKind: nat, k: nat)
    requires forall a :: a in attrs ==> a.kind != k
    ensures k !in TableOf(attrs, maxKind)
    decreases |attrs|
  {
    if attrs != [] {
      TableKinds(attrs[1..], maxKind, k);
    }
  }
}
