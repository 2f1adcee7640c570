/**
  Zones and the table: dumps of single zones partition the dump of everything,
  and flushing a zone takes away that zone's entries and no others.
 */
module ZoneDumps {
  import opened Conntrack
  import opened Chains
  import opened Netlink
  import opened CtMessage
  import opened CtParse
  import opened Filters
  import opened TableDump
  import opened DumpScan
  import opened DumpCoverage
  import opened DumpOnce
  import opened DumpRefs

  /** A request that names a zone and nothing else. */
  function ZoneRequest(z: U16): Table {
    map[CTA_ZONE := Be16(z)]
  }

  /** The filter of a request, if the request is accepted. */
  function RequestFilter(cda: Table): Option<Filter>
    requires Within(cda, CT_POLICY) && StartFilter(cda, 0).Ok?
  {
    StartFilter(cda, 0).value
  }

  /** A zone-only request becomes a filter that lets pass exactly the zone's connections. */
  lemma ZoneRequestMatches(z: U16, i: Info)
    ensures Within(ZoneRequest(z), CT_POLICY) && StartFilter(ZoneRequest(z), 0).Ok?
    ensures Passes(RequestFilter(ZoneRequest(z)), i) <==> OrigZone(i) == z
    ensures FlushFilter(ZoneRequest(z), 0) == StartFilter(ZoneRequest(z), 0)
  {
    And32Zero(i.mark);
    And32Zero(i.status);
    assert GetBe16(Be16(z)) == z;
  }

  /** A request that names nothing has no filter. */
  lemma EmptyRequestMatches(i: Info)
    ensures StartFilter(map[], 0) == Ok(None) && Passes(None, i)
  {
  }

  /** The length of a dump message about a connection. */
  function MessageLen(c: Conn, f: Flags): nat {
    NLMSG_HDRLEN + NFGENMSG_LEN + SizeAll(DumpAttrs(c, true, f))
  }

  /** It is the length of what is written, whatever the head says. */
  lemma MessageLenIs(h: Head, c: Conn, f: Flags)
    ensures |Message(h, DumpAttrs(c, true, f))| == MessageLen(c, f)
  {
    EncodeAllSize(DumpAttrs(c, true, f));
  }

  /**
    The query of a dump in namespace `net` with the given filter; `exportTcp` says whether the record is switched on.
   */
  function Dumping(net: nat, filter: Option<Filter>, exportTcp: bool): Query {
    Query(net, i => Passes(filter, i), c => MessageLen(c, Flags(filter.Some?, exportTcp)))
  }

  /** The query of a dump of zone `z`. */
  function ZoneQuery(net: nat, z: U16, exportTcp: bool): Query {
    ZoneRequestMatches(z, Info(ZERO_TUPLE, ZERO_TUPLE, DEFAULT_ZONE, 0, 0));
    Dumping(net, RequestFilter(ZoneRequest(z)), exportTcp)
  }

  function ZoneOf(es: Entries, c: ConnId): U16 {
    OrigZone(es(c).conn.info)
  }

  /** The connections of a list that are in zone `z`, in their order. */
  function InZone(es: Entries, ids: seq<ConnId>, z: U16): seq<ConnId> {
    if ids == [] then []
    else (if ZoneOf(es, ids[0]) == z then [ids[0]] else []) + InZone(es, ids[1..], z)
  }

  lemma {:induction false} InZoneConcat(es: Entries, a: seq<ConnId>, b: seq<ConnId>, z: U16)
    ensures InZone(es, a + b, z) == InZone(es, a, z) + InZone(es, b, z)
    decreases |a|
  {
    hide ZoneOf;
    if a == [] {
      assert a + b == b;
      assert InZone(es, a, z) == [];
    } else {
      var first := if ZoneOf(es, a[0]) == z then [a[0]] else [];
      assert (a + b)[0] == a[0] && (a + b)[1..] == a[1..] + b;
      assert InZone(es, a + b, z) == first + InZone(es, a[1..] + b, z);
      assert InZone(es, a, z) == first + InZone(es, a[1..], z);
      hide InZone;
      InZoneConcat(es, a[1..], b, z);
      Assoc(first, InZone(es, a[1..], z), InZone(es, b, z));
    }
  }

  lemma {:induction false} InZoneCounts(es: Entries, ids: seq<ConnId>, z: U16, c: ConnId)
    ensures multiset(InZone(es, ids, z))[c] == if ZoneOf(es, c) == z then multiset(ids)[c] else 0
    decreases |ids|
  {
    if ids != [] {
      InZoneCounts(es, ids[1..], z, c);
      assert ids == [ids[0]] + ids[1..];
    }
  }

  // ---------------------------------------------------------------- the partition

  lemma ZoneSelected(all: Query, es: Entries, net: nat, z: U16, exportTcp: bool, n: Node)
    requires all.net == net && forall i :: all.matches(i)
    ensures Selected(ZoneQuery(net, z, exportTcp), es, n) <==> Selected(all, es, n) && ZoneOf(es, n.ct) == z
  {
    ZoneRequestMatches(z, es(n.ct).conn.info);
    hide StartFilter, FlushFilter, Match, ZoneRequest, Within;
  }

  lemma {:induction false} ZoneChain(all: Query, es: Entries, net: nat, z: U16, exportTcp: bool, chain: seq<Node>)
    requires all.net == net && forall i :: all.matches(i)
    ensures Sel(ZoneQuery(net, z, exportTcp), es, chain) == InZone(es, Sel(all, es, chain), z)
    decreases |chain|
  {
    if chain != [] {
      ZoneSelected(all, es, net, z, exportTcp, chain[0]);
      ZoneChain(all, es, net, z, exportTcp, chain[1..]);
      var first := if Selected(all, es, chain[0]) then [chain[0].ct] else [];
      InZoneConcat(es, first, Sel(all, es, chain[1..]), z);
      hide Selected, ZoneOf, ZoneQuery;
      assert first != [] ==> first[1..] == [];
    }
  }

  lemma {:induction false} ZoneBuckets(all: Query, es: Entries, buckets: seq<seq<Node>>, b: nat, net: nat, z: U16,
                                       exportTcp: bool)
    requires all.net == net && forall i :: all.matches(i)
    ensures SelFrom(ZoneQuery(net, z, exportTcp), es, buckets, b) == InZone(es, SelFrom(all, es, buckets, b), z)
    decreases |buckets| - b
  {
    if b < |buckets| {
      ZoneChain(all, es, net, z, exportTcp, buckets[b]);
      ZoneBuckets(all, es, buckets, b + 1, net, z, exportTcp);
      InZoneConcat(es, Sel(all, es, buckets[b]), SelFrom(all, es, buckets, b + 1), z);
    }
  }

  /**
    Zone dumps partition the table: whatever the sizes of the buffers, a finished dump of zone `z` has sent what
    a finished dump of everything sends, restricted to that zone, in the same order. So every connection sent
    without a filter is sent, as often, by the dump of its own zone, and by that of no other. The two kinds of
    messages may have different lengths: only filtered dumps carry the tracker's record.
   */
  lemma ZonesPartition(w: World, net: nat, z: U16, exportTcp: bool, capsAll: seq<nat>, capsZone: seq<nat>,
                       c: ConnId)
    requires Unique(w.buckets)
    requires var all, one := Dumping(net, None, exportTcp), ZoneQuery(net, z, exportTcp);
             && (forall i :: 0 <= i < |capsAll| ==> AllFit(all, Start(w), capsAll[i]))
             && |capsAll| > |Everything(all, w)|
             && (forall i :: 0 <= i < |capsZone| ==> AllFit(one, Start(w), capsZone[i]))
             && |capsZone| > |Everything(one, w)|
    ensures var sentAll := Calls(Dumping(net, None, exportTcp), Start(w), capsAll).d.sent;
            var sentZone := Calls(ZoneQuery(net, z, exportTcp), Start(w), capsZone).d.sent;
            && sentZone == InZone(w.entries, sentAll, z)
            && multiset(sentZone)[c] == if ZoneOf(w.entries, c) == z then multiset(sentAll)[c] else 0
  {
    var all, one := Dumping(net, None, exportTcp), ZoneQuery(net, z, exportTcp);
    DumpSendsEachOnce(all, w, capsAll, c);
    DumpSendsEachOnce(one, w, capsZone, c);
    ZoneBuckets(all, w.entries, w.buckets, 0, net, z, exportTcp);
    InZoneCounts(w.entries, Everything(all, w), z, c);
  }

  // ---------------------------------------------------------------- flushing

  /** ctnetlink_flush_iterate: offloaded connections stay. */
  predicate Flushable(filter: Option<Filter>, i: Info) {
    !HasBit(i.status, IPS_OFFLOAD) && Passes(filter, i)
  }

  /** Every entry, as if it had not expired: the walk of a flush does not look at that. */
  function Awake(es: Entries): Entries {
    (c: ConnId) => es(c).(expired := false)
  }

  function Doomed(net: nat, filter: Option<Filter>): Query {
    Query(net, i => Flushable(filter, i), i => 0)
  }

  /** The connections a flush deletes: those of one namespace, by their original-direction nodes, in bucket order. */
  function FlushList(w: World, net: nat, filter: Option<Filter>): seq<ConnId> {
    SelFrom(Doomed(net, filter), Awake(w.entries), w.buckets, 0)
  }

  /** nf_ct_delete on each: an entry that is already dying is left to whoever is killing it. */
  function DeleteAll(w: World, ids: seq<ConnId>): World
    decreases |ids|
  {
    if ids == [] then w else DeleteAll(if ids[0] in w.dying then w else Kill(w, ids[0]), ids[1..])
  }

  /** The table after a flush with the given filter. */
  function Flush(w: World, net: nat, filter: Option<Filter>): World {
    DeleteAll(w, FlushList(w, net, filter))
  }

  /** The members of a list that are not already dying. */
  function Undying(dying: set<ConnId>, ids: seq<ConnId>): seq<ConnId> {
    if ids == [] then [] else (if ids[0] in dying then [] else [ids[0]]) + Undying(dying, ids[1..])
  }

  lemma {:induction false} UndyingHolds(dying: set<ConnId>, ids: seq<ConnId>, c: ConnId)
    ensures c in Undying(dying, ids) <==> c in ids && c !in dying
    ensures c !in ids ==> Undying(dying + {c}, ids) == Undying(dying, ids)
    decreases |ids|
  {
    if ids != [] {
      UndyingHolds(dying, ids[1..], c);
      assert ids == [ids[0]] + ids[1..];
    }
  }

  /** What a flush deletes. */
  function Flushed(w: World, net: nat, filter: Option<Filter>): seq<ConnId> {
    Undying(w.dying, FlushList(w, net, filter))
  }

  /** The nodes of a chain whose connections are not in `ids`, in their order. */
  function Spared(chain: seq<Node>, ids: seq<ConnId>): seq<Node> {
    if chain == [] then []
    else (if chain[0].ct in ids then [] else [chain[0]]) + Spared(chain[1..], ids)
  }

  lemma {:induction false} SparedStep(chain: seq<Node>, ids: seq<ConnId>)
    requires ids != []
    ensures Spared(Without(chain, ids[0]), ids[1..]) == Spared(chain, ids)
    decreases |chain|
  {
    if chain != [] {
      SparedStep(chain[1..], ids);
      var rest := Without(chain[1..], ids[0]);
      assert chain[0].ct in ids <==> chain[0].ct == ids[0] || chain[0].ct in ids[1..];
      if chain[0].ct != ids[0] {
        assert Without(chain, ids[0]) == [chain[0]] + rest;
        assert ([chain[0]] + rest)[1..] == rest;
      } else {
        assert Without(chain, ids[0]) == rest;
      }
    }
  }

  lemma {:induction false} SparedNone(chain: seq<Node>)
    ensures Spared(chain, []) == chain
    decreases |chain|
  {
    if chain != [] {
      SparedNone(chain[1..]);
    }
  }

  predicate NoRepeat(ids: seq<ConnId>) {
    forall c :: c in ids ==> multiset(ids)[c] == 1
  }

  lemma NoRepeatTail(ids: seq<ConnId>)
    requires NoRepeat(ids) && ids != []
    ensures NoRepeat(ids[1..]) && multiset(ids) == multiset{ids[0]} + multiset(ids[1..])
    ensures forall c :: c in ids[1..] ==> c in ids && c != ids[0]
  {
    assert ids == [ids[0]] + ids[1..];
    forall c | c in ids[1..]
      ensures c in ids && c != ids[0] && multiset(ids[1..])[c] == 1
    {
      assert c in ids && ids[0] in ids && c in multiset(ids[1..]);
    }
  }

  lemma KillKeepsOthers(w: World, k: ConnId, ids: seq<ConnId>)
    requires forall c :: c in ids ==> InTable(w, c) && c != k
    ensures forall c :: c in ids ==> InTable(Kill(w, k), c)
  {
    forall c | c in ids
      ensures InTable(Kill(w, k), c)
    {
      KillLinks(w, k, Node(c, Original));
      KillLinks(w, k, Node(c, Reply));
    }
  }

  /**
    Deleting a list of linked connections removes the nodes of those that are not already dying, and drops the
    table's reference on each of them, and no more.
   */
  lemma {:induction false} DeleteAllDoes(w: World, ids: seq<ConnId>)
    requires NoRepeat(ids) && forall c :: c in ids ==> InTable(w, c)
    ensures var r := DeleteAll(w, ids);
            && |r.buckets| == |w.buckets| && r.entries == w.entries
            && (forall b :: 0 <= b < |w.buckets| ==> r.buckets[b] == Spared(w.buckets[b], Undying(w.dying, ids)))
            && r.use == w.use - multiset(Undying(w.dying, ids))
    decreases |ids|, 1
  {
    if ids == [] {
      forall b | 0 <= b < |w.buckets|
        ensures w.buckets[b] == Spared(w.buckets[b], [])
      {
        SparedNone(w.buckets[b]);
      }
    } else {
      NoRepeatTail(ids);
      if ids[0] in w.dying {
        assert Undying(w.dying, ids) == Undying(w.dying, ids[1..]);
        hide InTable, NoRepeat, Undying;
        DeleteAllDoes(w, ids[1..]);
      } else {
        DeleteFirst(w, ids);
      }
    }
  }

  lemma {:induction false} DeleteFirst(w: World, ids: seq<ConnId>)
    requires NoRepeat(ids) && ids != [] && ids[0] !in w.dying && forall c :: c in ids ==> InTable(w, c)
    ensures var r := DeleteAll(w, ids);
            && |r.buckets| == |w.buckets| && r.entries == w.entries
            && (forall b :: 0 <= b < |w.buckets| ==> r.buckets[b] == Spared(w.buckets[b], Undying(w.dying, ids)))
            && r.use == w.use - multiset(Undying(w.dying, ids))
    decreases |ids|, 0
  {
    var k, c, rest := Kill(w, ids[0]), ids[0], ids[1..];
    assert c in ids;
    NoRepeatTail(ids);
    KillKeepsOthers(w, c, rest);
    UndyingHolds(w.dying, rest, c);
    var gone := Undying(w.dying, ids);
    assert gone == [c] + Undying(w.dying, rest);
    assert gone[0] == c && gone[1..] == Undying(k.dying, rest);
    assert multiset(gone) == multiset{c} + multiset(gone[1..]);
    hide InTable, NoRepeat, Undying;
    DeleteAllDoes(k, rest);
    forall b | 0 <= b < |w.buckets|
      ensures DeleteAll(w, ids).buckets[b] == Spared(w.buckets[b], gone)
    {
      SparedStep(w.buckets[b], gone);
    }
  }

  /** Which connections the walk of a flush meets; each once. */
  lemma FlushListHolds(w: World, net: nat, filter: Option<Filter>)
    requires Unique(w.buckets)
    ensures NoRepeat(FlushList(w, net, filter))
    ensures forall c :: c in FlushList(w, net, filter) <==>
              Linked(w, Node(c, Original)) && w.entries(c).net == net && Flushable(filter, w.entries(c).conn.info)
  {
    var ids := FlushList(w, net, filter);
    forall c
      ensures c in ids <==>
              Linked(w, Node(c, Original)) && w.entries(c).net == net && Flushable(filter, w.entries(c).conn.info)
      ensures multiset(ids)[c] <= 1
    {
      SelFromCounts(Doomed(net, filter), w.(entries := Awake(w.entries)), 0, c);
      assert LinkedFrom(w.buckets, 0, Node(c, Original)) <==> Linked(w, Node(c, Original));
      assert c in ids <==> multiset(ids)[c] > 0;
    }
  }

  /** A list without the members of another. */
  function Remaining(ids: seq<ConnId>, gone: seq<ConnId>): seq<ConnId> {
    if ids == [] then [] else (if ids[0] in gone then [] else [ids[0]]) + Remaining(ids[1..], gone)
  }

  lemma {:induction false} RemainingConcat(a: seq<ConnId>, b: seq<ConnId>, gone: seq<ConnId>)
    ensures Remaining(a + b, gone) == Remaining(a, gone) + Remaining(b, gone)
    decreases |a|
  {
    if a == [] {
      assert a + b == b;
    } else {
      assert (a + b)[1..] == a[1..] + b;
      RemainingConcat(a[1..], b, gone);
    }
  }

  lemma {:induction false} SparedSel(q: Query, es: Entries, chain: seq<Node>, gone: seq<ConnId>)
    ensures Sel(q, es, Spared(chain, gone)) == Remaining(Sel(q, es, chain), gone)
    decreases |chain|
  {
    if chain != [] {
      SparedSel(q, es, chain[1..], gone);
      var first := if Selected(q, es, chain[0]) then [chain[0].ct] else [];
      RemainingConcat(first, Sel(q, es, chain[1..]), gone);
      assert first != [] ==> first[1..] == [];
      var rest := Spared(chain[1..], gone);
      if chain[0].ct in gone {
        assert Spared(chain, gone) == rest;
      } else {
        assert Spared(chain, gone) == [chain[0]] + rest;
        assert ([chain[0]] + rest)[1..] == rest;
      }
    }
  }

  lemma {:induction false} SparedSelFrom(q: Query, es: Entries, before: seq<seq<Node>>, after: seq<seq<Node>>, b: nat,
                                         gone: seq<ConnId>)
    requires |after| == |before| && forall i :: 0 <= i < |before| ==> after[i] == Spared(before[i], gone)
    ensures SelFrom(q, es, after, b) == Remaining(SelFrom(q, es, before, b), gone)
    decreases |before| - b
  {
    if b < |before| {
      SparedSel(q, es, before[b], gone);
      SparedSelFrom(q, es, before, after, b + 1, gone);
      RemainingConcat(Sel(q, es, before[b]), SelFrom(q, es, before, b + 1), gone);
    }
  }

  /**
    A flush removes the connections it deletes from every dump, whatever that asks for, and leaves the rest in
    order; the table gives back one reference on each of them.
   */
  lemma FlushRemoves(w: World, net: nat, filter: Option<Filter>, q: Query)
    requires Unique(w.buckets)
    ensures var r := Flush(w, net, filter);
            && r.entries == w.entries
            && r.use == w.use - multiset(Flushed(w, net, filter))
            && Everything(q, r) == Remaining(Everything(q, w), Flushed(w, net, filter))
  {
    var ids := FlushList(w, net, filter);
    FlushListHolds(w, net, filter);
    assert forall c :: c in ids ==> InTable(w, c);
    hide FlushList;
    DeleteAllDoes(w, ids);
    SparedSelFrom(q, w.entries, w.buckets, Flush(w, net, filter).buckets, 0, Flushed(w, net, filter));
  }

  /** A flush leaves these: offloaded, or already dying and so in the hands of another thread. */
  predicate Immune(w: World, c: ConnId) {
    w.entries(c).conn.info.status / 0x4000 % 2 == 1 || c in w.dying
  }

  /** The immune connections of a list, in their order. */
  function Kept(w: World, ids: seq<ConnId>): seq<ConnId> {
    if ids == [] then [] else (if Immune(w, ids[0]) then [ids[0]] else []) + Kept(w, ids[1..])
  }

  lemma {:induction false} RemainingSame(ids: seq<ConnId>, gone: seq<ConnId>)
    requires forall c :: c in ids ==> c !in gone
    ensures Remaining(ids, gone) == ids
    decreases |ids|
  {
    if ids != [] {
      assert ids[0] in ids;
      RemainingSame(ids[1..], gone);
    }
  }

  lemma {:induction false} RemainingKept(w: World, ids: seq<ConnId>, gone: seq<ConnId>)
    requires forall c :: c in ids ==> (c in gone <==> !Immune(w, c))
    ensures Remaining(ids, gone) == Kept(w, ids)
    decreases |ids|
  {
    if ids != [] {
      assert ids[0] in ids;
      RemainingKept(w, ids[1..], gone);
    }
  }

  /** What a member of a zone's dump is. */
  lemma ZoneMember(w: World, net: nat, z: U16, exportTcp: bool, c: ConnId)
    requires Unique(w.buckets) && c in Everything(ZoneQuery(net, z, exportTcp), w)
    ensures Linked(w, Node(c, Original)) && w.entries(c).net == net && ZoneOf(w.entries, c) == z
  {
    var q := ZoneQuery(net, z, exportTcp);
    SelFromCounts(q, w, 0, c);
    assert multiset(Everything(q, w))[c] > 0;
    assert LinkedFrom(w.buckets, 0, Node(c, Original)) <==> Linked(w, Node(c, Original));
    ZoneSelected(Dumping(net, None, exportTcp), w.entries, net, z, exportTcp, Node(c, Original));
  }

  /** The flush request for zone `z`. */
  function FlushZone(w: World, net: nat, z: U16): World {
    ZoneRequestMatches(z, Info(ZERO_TUPLE, ZERO_TUPLE, DEFAULT_ZONE, 0, 0));
    Flush(w, net, FlushFilter(ZoneRequest(z), 0).value)
  }

  lemma FlushedInZone(w: World, net: nat, z: U16, c: ConnId)
    requires Unique(w.buckets)
    ensures Within(ZoneRequest(z), CT_POLICY) && FlushFilter(ZoneRequest(z), 0).Ok?
    ensures c in Flushed(w, net, FlushFilter(ZoneRequest(z), 0).value) <==>
            Linked(w, Node(c, Original)) && w.entries(c).net == net && !Immune(w, c) && ZoneOf(w.entries, c) == z
  {
    ZoneRequestMatches(z, w.entries(c).conn.info);
    var filter := FlushFilter(ZoneRequest(z), 0).value;
    FlushListHolds(w, net, filter);
    UndyingHolds(w.dying, FlushList(w, net, filter), c);
    hide FlushFilter, StartFilter, ZoneRequest, Match;
  }

  /**
    Flushing zone `z` leaves of that zone's dump exactly the connections that are offloaded or were already dying,
    and leaves the dump of every other zone, and of every other namespace, as it was.
   */
  lemma FlushZoneExactly(w: World, net: nat, z: U16, net': nat, z': U16, exportTcp: bool)
    requires Unique(w.buckets)
    ensures var q := ZoneQuery(net', z', exportTcp);
            Everything(q, FlushZone(w, net, z)) ==
            if net' == net && z' == z then Kept(w, Everything(q, w)) else Everything(q, w)
  {
    var q := ZoneQuery(net', z', exportTcp);
    ZoneRequestMatches(z, Info(ZERO_TUPLE, ZERO_TUPLE, DEFAULT_ZONE, 0, 0));
    var filter := FlushFilter(ZoneRequest(z), 0).value;
    var ids, gone := Everything(q, w), Flushed(w, net, filter);
    FlushRemoves(w, net, filter, q);
    forall c | c in ids
      ensures c in gone <==> net' == net && z' == z && !Immune(w, c)
    {
      ZoneMember(w, net', z', exportTcp, c);
      FlushedInZone(w, net, z, c);
    }
    if net' == net && z' == z {
      RemainingKept(w, ids, gone);
    } else {
      RemainingSame(ids, gone);
    }
  }
}
