/**
  What messages say. Every attribute of a dump message and of an event message
  is read back, by its number on the wire, as the connection's own value, and
  is there exactly if the connection has it and the message is to carry it.
 */
module Contents {
  import opened Conntrack
  import opened Netlink
  import opened CtMessage
  import opened CtParse
  import opened RoundTrip
  import opened Reset
  import opened EventSize

  // ---------------------------------------------------------------- reading

  /** A 32-bit number in network order. */
  function Number(tb: Table, k: nat): Option<U32> {
    if k in tb && |tb[k]| == 4 then Some(GetBe32(tb[k])) else None
  }

  /** An attribute inside a nest. */
  function Inner(tb: Table, k: nat, sub: nat): Option<seq<Byte>> {
    if k in tb then Lookup(Parse(tb[k], ANY_KIND), sub) else None
  }

  function InnerNumber(tb: Table, k: nat, sub: nat): Option<U32> {
    match Inner(tb, k, sub) case Some(b) => if |b| == 4 then Some(GetBe32(b)) else None case None => None
  }

  // ---------------------------------------------------------------- messages in parts

  /** The parts of a message do not share kinds: which part a kind belongs to. */
  function Part(k: nat): nat {
    if k == 2 || k == 18 then 1 else if k == 10 then 9 else if k == 16 then 15 else k
  }

  predicate IsPart(attrs: seq<Attr>, p: nat) {
    forall a :: a in attrs ==> Part(a.kind) == p
  }

  function Flatten(groups: seq<seq<Attr>>): seq<Attr> {
    if groups == [] then [] else Flatten(groups[..|groups| - 1]) + groups[|groups| - 1]
  }

  lemma {:induction false} FlattenAppend(a: seq<seq<Attr>>, b: seq<seq<Attr>>)
    ensures Flatten(a + b) == Flatten(a) + Flatten(b)
    decreases |b|
  {
    if b == [] {
      assert a + b == a;
      assert Flatten(a) + [] == Flatten(a);
    } else {
      var n := |b| - 1;
      assert (a + b)[..|a + b| - 1] == a + b[..n];
      FlattenAppend(a, b[..n]);
      assert Flatten(a) + (Flatten(b[..n]) + b[n]) == (Flatten(a) + Flatten(b[..n])) + b[n];
    }
  }

  /** The `j`-th part is the only one whose kinds are of part `p`. */
  predicate Sorted(groups: seq<seq<Attr>>, parts: seq<nat>) {
    && |groups| == |parts|
    && (forall i :: 0 <= i < |groups| ==> IsPart(groups[i], parts[i]))
    && (forall i, j :: 0 <= i < j < |parts| ==> parts[i] != parts[j])
  }

  lemma LookupConcat(a: seq<Attr>, b: seq<Attr>, k: nat)
    ensures Lookup(TableOf(a + b, CTA_MAX), k) ==
            if k in TableOf(b, CTA_MAX) then Lookup(TableOf(b, CTA_MAX), k) else Lookup(TableOf(a, CTA_MAX), k)
  {
    TableConcat(a, b, CTA_MAX);
    hide TableOf;
  }

  lemma {:induction false} FlattenAbsent(groups: seq<seq<Attr>>, parts: seq<nat>, k: nat)
    requires Sorted(groups, parts) && Part(k) !in parts
    ensures Lookup(TableOf(Flatten(groups), CTA_MAX), k) == None
    decreases |groups|
  {
    if groups != [] {
      var n := |groups| - 1;
      SortedFront(groups, parts);
      hide Sorted, TableOf, Part, Flatten, IsPart;
      FlattenAbsent(groups[..n], parts[..n], k);
      LookupConcat(Flatten(groups[..n]), groups[n], k);
      NotIn(groups[n], parts[n], k);
    }
  }

  lemma SortedFront(groups: seq<seq<Attr>>, parts: seq<nat>)
    requires Sorted(groups, parts) && groups != []
    ensures var n := |groups| - 1;
            && Sorted(groups[..n], parts[..n]) && IsPart(groups[n], parts[n]) && parts[n] !in parts[..n]
            && Flatten(groups) == Flatten(groups[..n]) + groups[n]
  {
    hide IsPart;
    var n := |groups| - 1;
    forall i | 0 <= i < n
      ensures IsPart(groups[..n][i], parts[..n][i]) && parts[..n][i] != parts[n]
    {
      assert IsPart(groups[i], parts[i]);
    }
    hide Flatten;
  }

  /** A part without a kind does not matter to it. */
  lemma NotIn(attrs: seq<Attr>, p: nat, k: nat)
    requires IsPart(attrs, p) && p != Part(k)
    ensures k !in TableOf(attrs, CTA_MAX)
  {
    TableKinds(attrs, CTA_MAX, k);
    hide TableOf;
  }

  /** A kind is looked up in its own part. */
  lemma {:induction false} FlattenLookup(groups: seq<seq<Attr>>, parts: seq<nat>, j: nat, k: nat)
    requires Sorted(groups, parts) && j < |parts| == |groups| && parts[j] == Part(k)
    ensures Lookup(TableOf(Flatten(groups), CTA_MAX), k) == Lookup(TableOf(groups[j], CTA_MAX), k)
    decreases |groups|
  {
    var n := |groups| - 1;
    SortedFront(groups, parts);
    hide Sorted, TableOf, Part, Flatten, IsPart;
    LookupConcat(Flatten(groups[..n]), groups[n], k);
    if j == n {
      FlattenAbsent(groups[..n], parts[..n], k);
    } else {
      assert parts[j] in parts[..n];
      FlattenLookup(groups[..n], parts[..n], j, k);
      NotIn(groups[n], parts[n], k);
    }
  }

  // ---------------------------------------------------------------- what each part says

  lemma OneAttr(a: Attr, k: nat)
    requires 0 < a.kind <= CTA_MAX
    ensures Lookup(TableOf([a], CTA_MAX), k) == if k == a.kind then Some(Payload(a)) else None
  {
    assert [a][1..] == [];
    hide Payload;
  }

  lemma NoAttr(k: nat)
    ensures Lookup(TableOf([], CTA_MAX), k) == None
  {
  }

  lemma Be32Alone(n: U32)
    ensures GetBe32(Be32(n)) == n
  {
    Be32Reads(n, []);
    assert Be32(n) + [] == Be32(n);
    hide Be32, GetBe32;
  }

  lemma U32Says(k: nat, n: U32, tb: Table)
    requires 0 < k <= CTA_MAX && Lookup(tb, k) == Lookup(TableOf([U32Attr(k, n)], CTA_MAX), k)
    ensures Number(tb, k) == Some(n)
  {
    OneAttr(U32Attr(k, n), k);
    Be32Alone(n);
    hide TableOf, GetBe32, Be32;
  }

  /** A table holds, for the kinds of a part, what the attributes of that part are, and they fit their fields. */
  ghost predicate Holds(tb: Table, attrs: seq<Attr>, p: nat) {
    && (forall k :: Part(k) == p ==> Lookup(tb, k) == Lookup(TableOf(attrs, CTA_MAX), k))
    && (forall a :: a in attrs ==> Sized(a))
  }

  /** The attributes of a nest are read from it. */
  lemma InnerReads(tb: Table, k: nat, kids: seq<Attr>, sub: nat)
    requires Sized(Nest(k, kids)) && Lookup(tb, k) == Some(Payload(Nest(k, kids)))
    requires forall x :: x in kids ==> 0 < x.kind < 0x4000
    ensures Inner(tb, k, sub) == Lookup(TableOf(kids, ANY_KIND), sub)
  {
    KidsSized(Nest(k, kids));
    ParseEncoded(kids, ANY_KIND);
    assert Payload(Nest(k, kids)) == EncodeAll(kids);
    hide Parse, TableOf, EncodeAll, Payload;
  }

  lemma OneIn(a: Attr)
    requires 0 < a.kind <= ANY_KIND
    ensures TableOf([a], ANY_KIND) == map[a.kind := Payload(a)]
  {
    assert [a][1..] == [];
    hide Payload;
  }

  lemma ThreeIn(a: Attr, b: Attr, c: Attr)
    requires 0 < a.kind <= ANY_KIND && 0 < b.kind <= ANY_KIND && 0 < c.kind <= ANY_KIND
    ensures TableOf([a, b, c], ANY_KIND) ==
            map[a.kind := Payload(a)] + map[b.kind := Payload(b)] + map[c.kind := Payload(c)]
  {
    assert [a, b, c] == [a, b] + [c];
    TableConcat([a, b], [c], ANY_KIND);
    TableOfTwo(a, b, ANY_KIND);
    OneIn(c);
    hide Payload, TableOf;
  }

  // ---------------------------------------------------------------- the parts, one by one

  lemma StatusSays(c: Conn, tb: Table)
    requires Holds(tb, StatusAttrs(c), 3)
    ensures Number(tb, 3) == Some(c.info.status)
  {
    U32Says(3, c.info.status, tb);
    hide TableOf, U32Attr;
  }

  lemma IdSays(c: Conn, tb: Table)
    requires Holds(tb, IdAttrs(c), 12)
    ensures Number(tb, 12) == Some(c.id)
  {
    U32Says(12, c.id, tb);
    hide TableOf, U32Attr;
  }

  lemma UseSays(c: Conn, tb: Table)
    requires Holds(tb, UseAttrs(c), 11)
    ensures Number(tb, 11) == Some(c.use)
  {
    U32Says(11, c.use, tb);
    hide TableOf, U32Attr;
  }

  lemma MarkSays(c: Conn, always: bool, tb: Table)
    requires Holds(tb, MarkAttrs(c, always), 8)
    ensures Number(tb, 8) == if always || c.info.mark != 0 then Some(c.info.mark) else None
  {
    if always || c.info.mark != 0 {
      U32Says(8, c.info.mark, tb);
    } else {
      NoAttr(8);
    }
    hide TableOf, U32Attr;
  }

  lemma TimeoutSays(c: Conn, on: bool, skipZero: bool, tb: Table)
    requires Holds(tb, When(on, TimeoutAttrs(c, skipZero)), 7)
    ensures Number(tb, 7) == if on && (c.timeout != 0 || !skipZero) then Some(c.timeout) else None
  {
    if on && (c.timeout != 0 || !skipZero) {
      U32Says(7, c.timeout, tb);
    } else {
      NoAttr(7);
    }
    hide TableOf, U32Attr;
  }

  /** A nest with one attribute, or none at all. */
  lemma TextSays(tb: Table, k: nat, on: bool, text: seq<Byte>)
    requires 0 < k <= CTA_MAX && Part(k) == k
    requires Holds(tb, When(on, [Nest(k, [Leaf(1, text)])]), k)
    ensures Inner(tb, k, 1) == if on then Some(text) else None
  {
    if on {
      var nest := Nest(k, [Leaf(1, text)]);
      assert nest in When(on, [nest]);
      OneAttr(nest, k);
      InnerReads(tb, k, [Leaf(1, text)], 1);
      OneIn(Leaf(1, text));
    } else {
      NoAttr(k);
    }
    hide TableOf, EncodeAll, Parse;
  }

  lemma SecctxSays(c: Conn, on: bool, tb: Table)
    requires Holds(tb, When(on, SecctxAttrs(c)), 19)
    ensures Inner(tb, 19, 1) == if on && c.secctx.Some? then Some(c.secctx.value.text + [0]) else None
  {
    var text := if c.secctx.Some? then c.secctx.value.text + [0] else [];
    assert When(on, SecctxAttrs(c)) == When(on && c.secctx.Some?, [Nest(19, [Leaf(1, text)])]);
    hide Holds;
    TextSays(tb, 19, on && c.secctx.Some?, text);
  }

  lemma HelpSays(c: Conn, on: bool, tb: Table)
    requires Holds(tb, When(on, HelpAttrs(c)), 5)
    ensures Inner(tb, 5, 1) == match c.help
              case Some(Some(name)) => if on then Some(name + [0]) else None
              case _ => None
  {
    var has := c.help.Some? && c.help.value.Some?;
    var text := if has then c.help.value.value + [0] else [];
    assert When(on, HelpAttrs(c)) == When(on && has, [Nest(5, [Leaf(1, text)])]);
    hide Holds;
    TextSays(tb, 5, on && has, text);
  }

  /** One of two nests of a part. */
  lemma NestOf(tb: Table, a: Attr, b: Attr, p: nat)
    requires Holds(tb, [a, b], p) && 0 < a.kind <= CTA_MAX && 0 < b.kind <= CTA_MAX && a.kind != b.kind
    requires Part(a.kind) == p && Part(b.kind) == p
    ensures Lookup(tb, a.kind) == Some(Payload(a)) && Lookup(tb, b.kind) == Some(Payload(b)) && Sized(a) && Sized(b)
  {
    TableOfTwo(a, b, CTA_MAX);
    assert a in [a, b] && b in [a, b];
    hide TableOf, Payload, Part;
  }

  lemma CounterSays(tb: Table, k: nat, n: Counters)
    requires Sized(CounterAttr(k, n)) && Lookup(tb, k) == Some(Payload(CounterAttr(k, n)))
    ensures Inner(tb, k, 1) == Some(n.packets) && Inner(tb, k, 2) == Some(n.bytes)
  {
    var a, b := Leaf(1, n.packets), Leaf(2, n.bytes);
    InnerReads(tb, k, [a, b], 1);
    InnerReads(tb, k, [a, b], 2);
    TableOfTwo(a, b, ANY_KIND);
    hide TableOf, EncodeAll, Parse;
  }

  /** Packets and bytes, of each direction. */
  lemma AcctSays(c: Conn, on: bool, tb: Table)
    requires Holds(tb, When(on, AcctAttrs(c)), 9)
    ensures on && c.acct.Some? ==>
              var n := c.acct.value;
              && Inner(tb, 9, 1) == Some(n.orig.packets) && Inner(tb, 9, 2) == Some(n.orig.bytes)
              && Inner(tb, 10, 1) == Some(n.reply.packets) && Inner(tb, 10, 2) == Some(n.reply.bytes)
    ensures !(on && c.acct.Some?) ==> 9 !in tb && 10 !in tb
  {
    if on && c.acct.Some? {
      var n := c.acct.value;
      NestOf(tb, CounterAttr(9, n.orig), CounterAttr(10, n.reply), 9);
      CounterSays(tb, 9, n.orig);
      CounterSays(tb, 10, n.reply);
    } else {
      NoAttr(9);
      NoAttr(10);
    }
    hide TableOf, CounterAttr, Inner, Payload;
  }

  lemma TstampSays(c: Conn, on: bool, tb: Table)
    requires Holds(tb, When(on, TstampAttrs(c)), 20)
    ensures Inner(tb, 20, 1) == if on && c.tstamp.Some? then Some(c.tstamp.value.start) else None
    ensures Inner(tb, 20, 2) == if on && c.tstamp.Some? then c.tstamp.value.stop else None
  {
    if on && c.tstamp.Some? {
      var t := c.tstamp.value;
      var nest := Nest(20, StampAttrs(t));
      assert nest in When(on, TstampAttrs(c));
      OneAttr(nest, 20);
      InnerReads(tb, 20, StampAttrs(t), 1);
      InnerReads(tb, 20, StampAttrs(t), 2);
      if t.stop.Some? {
        assert StampAttrs(t) == [Leaf(1, t.start), Leaf(2, t.stop.value)];
        TableOfTwo(Leaf(1, t.start), Leaf(2, t.stop.value), ANY_KIND);
      } else {
        assert StampAttrs(t) == [Leaf(1, t.start)];
        OneIn(Leaf(1, t.start));
      }
    } else {
      NoAttr(20);
    }
    hide TableOf, EncodeAll, Parse;
  }

  /** Three numbers in a nest. */
  lemma ThreeSay(tb: Table, k: nat, x: U32, y: U32, z: U32)
    requires var nest := Nest(k, [U32Attr(1, x), U32Attr(2, y), U32Attr(3, z)]);
             Sized(nest) && Lookup(tb, k) == Some(Payload(nest))
    ensures InnerNumber(tb, k, 1) == Some(x) && InnerNumber(tb, k, 2) == Some(y) && InnerNumber(tb, k, 3) == Some(z)
  {
    var kids := [U32Attr(1, x), U32Attr(2, y), U32Attr(3, z)];
    InnerReads(tb, k, kids, 1);
    InnerReads(tb, k, kids, 2);
    InnerReads(tb, k, kids, 3);
    ThreeIn(kids[0], kids[1], kids[2]);
    Be32Alone(x);
    Be32Alone(y);
    Be32Alone(z);
    hide TableOf, EncodeAll, Parse, Be32, GetBe32;
  }

  /** Position and both offsets, of each direction, if the status says that numbers are adjusted. */
  lemma SeqAdjSays(c: Conn, on: bool, tb: Table)
    requires Holds(tb, When(on, SeqAdjAttrs(c)), 15)
    ensures var adjusted := on && c.seqadj.Some? && c.info.status / 0x40 % 2 == 1;
            && (adjusted ==>
                  var (o, r) := c.seqadj.value;
                  && InnerNumber(tb, 15, 1) == Some(o.pos) && InnerNumber(tb, 15, 2) == Some(o.before)
                  && InnerNumber(tb, 15, 3) == Some(o.after)
                  && InnerNumber(tb, 16, 1) == Some(r.pos) && InnerNumber(tb, 16, 2) == Some(r.before)
                  && InnerNumber(tb, 16, 3) == Some(r.after))
            && (!adjusted ==> 15 !in tb && 16 !in tb)
  {
    if on && c.seqadj.Some? && c.info.status / 0x40 % 2 == 1 {
      var (o, r) := c.seqadj.value;
      NestOf(tb, SeqAdjAttr(15, o), SeqAdjAttr(16, r), 15);
      ThreeSay(tb, 15, o.pos, o.before, o.after);
      ThreeSay(tb, 16, r.pos, r.before, r.after);
    } else {
      NoAttr(15);
      NoAttr(16);
    }
    hide TableOf, InnerNumber, Payload;
  }

  lemma SynProxySays(c: Conn, on: bool, tb: Table)
    requires Holds(tb, When(on, SynProxyAttrs(c)), 24)
    ensures on && c.synproxy.Some? ==>
              var s := c.synproxy.value;
              && InnerNumber(tb, 24, 1) == Some(s.isn) && InnerNumber(tb, 24, 2) == Some(s.its)
              && InnerNumber(tb, 24, 3) == Some(s.tsoff)
    ensures !(on && c.synproxy.Some?) ==> 24 !in tb
  {
    if on && c.synproxy.Some? {
      var s := c.synproxy.value;
      var nest := SynProxyAttrs(c)[0];
      assert nest in When(on, SynProxyAttrs(c));
      OneAttr(nest, 24);
      ThreeSay(tb, 24, s.isn, s.its, s.tsoff);
    } else {
      NoAttr(24);
    }
    hide TableOf, InnerNumber, Payload;
  }

  /** The labels, all of them, if any bit is set. */
  lemma LabelsSay(c: Conn, on: bool, tb: Table)
    requires Holds(tb, When(on, LabelAttrs(c)), 22)
    ensures Lookup(tb, 22) ==
            if on && c.labels.Some? && (exists i :: 0 <= i < |c.labels.value| && c.labels.value[i] != 0)
            then Some(LabelBytes(c.labels.value)) else None
  {
    if on && c.labels.Some? && exists i :: 0 <= i < |c.labels.value| && c.labels.value[i] != 0 {
      OneAttr(Leaf(22, LabelBytes(c.labels.value)), 22);
    } else {
      NoAttr(22);
    }
    hide TableOf, LabelBytes;
  }

  /** Word `i` of the labels. */
  lemma {:induction false} LabelWord(words: seq<U32>, i: nat)
    requires i < |words|
    ensures 4 * i + 4 <= |LabelBytes(words)| && GetLe32(LabelBytes(words)[4 * i..]) == words[i]
    decreases |words|
  {
    LabelLength(words);
    var rest := LabelBytes(words[1..]);
    if i == 0 {
      Le32Reads(words[0], rest);
      assert LabelBytes(words)[0..] == LabelBytes(words);
    } else {
      LabelWord(words[1..], i - 1);
      assert LabelBytes(words)[4 * i..] == rest[4 * (i - 1)..];
    }
    hide Le32, GetLe32;
  }

  /** The original tuple of the master, if the status says that the connection was expected. */
  lemma MasterSays(c: Conn, on: bool, tb: Table, z: Zone)
    requires Holds(tb, When(on, MasterAttrs(c)), 14) && Complete(c.master) && c.master.dir == Original
    ensures 14 in tb <==> on && c.info.status % 2 == 1
    ensures on && c.info.status % 2 == 1 ==>
              ParseTupleFilter(tb[14], 14, c.master.l3num, z, ALL_FLAGS) == Ok((c.master, z))
  {
    if on && c.info.status % 2 == 1 {
      var nest := Nest(14, TupleAttrs(c.master));
      assert nest in When(on, MasterAttrs(c));
      OneAttr(nest, 14);
      EncodeParts(nest);
      assert TupleAttrs(c.master) + [] == TupleAttrs(c.master);
      hide TableOf, ParseTupleFilter, EncodeAll;
      TupleReads(c.master, [], 14, z);
    } else {
      NoAttr(14);
    }
  }
}
